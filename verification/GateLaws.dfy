/** What the action gate guarantees about every set of reports and every set of inputs. */
module GateLaws {
  import opened Prelude
  import opened Aggregation
  import opened Values
  import opened ActionContract
  import opened ActionChecks
  import opened ActionGate

  // ---------------------------------------------------------------- the record

  /** Missing configuration, an unknown action and an unknown operator are failures, whatever was reported. */
  function CountsAs(c: CheckResult): CheckState {
    match c.code
    case ConfigMissing => Failed
    case UnknownActionType => Failed
    case UnknownRuleOperator => Failed
    case _ => c.state
  }

  /** `r` is a report of `name` in the state it counts as, and no report of `name` counts as more severe. */
  ghost predicate WorstAsCounted(checks: seq<CheckResult>, name: CheckName, r: CheckResult) {
    && (exists c :: c in checks && c.name == name && r == c.(state := CountsAs(c)))
    && (forall c :: c in checks && c.name == name ==> Severity(CountsAs(c)) <= Severity(r.state))
  }

  ghost predicate WorstReport(checks: seq<CheckResult>, name: CheckName, r: CheckResult) {
    && (exists c :: c in checks && c.name == name && Coerce(c) == r)
    && (forall c :: c in checks && c.name == name ==> Severity(Coerce(c).state) <= Severity(r.state))
  }

  lemma WorstIsCounted(checks: seq<CheckResult>, name: CheckName, r: CheckResult)
    requires WorstReport(checks, name, r)
    ensures WorstAsCounted(checks, name, r)
  {
    forall c: CheckResult ensures Coerce(c) == c.(state := CountsAs(c)) {
      CoerceMeaning(c);
    }
  }

  lemma CoerceMeaning(c: CheckResult)
    ensures Coerce(c) == c.(state := CountsAs(c))
    ensures CountsAs(c) == Failed <==> c.state == Failed || HardFail(c.code)
  {
  }

  lemma HeldIsTheWorst(checks: seq<CheckResult>, name: CheckName)
    ensures Held(checks, name).name == name
    ensures Reported(checks, name) ==> WorstReport(checks, name, Held(checks, name))
    ensures !Reported(checks, name) ==> Held(checks, name) == DidNotRun(name)
  {
    WorstIsWorst(Coerced(checks), name);
    var r := Held(checks, name);
    if Reported(Coerced(checks), name) {
      var i :| 0 <= i < |checks| && Coerced(checks)[i] == r;
      assert checks[i] in checks && checks[i].name == name;
    }
    forall c | c in checks ensures Coerce(c) in Coerced(checks) {
      var i :| 0 <= i < |checks| && checks[i] == c;
      assert Coerced(checks)[i] == Coerce(c);
    }
    if c :| c in checks && c.name == name {
      assert Coerce(c).name == name;
    }
  }

  /** Six checks in the fixed order; each is the worst report of its name, as it counts, a failure when
      nobody reported it, or the rejection of an unknown action. */
  lemma RecordIsTheWorstOfEachCheck(checks: seq<CheckResult>, action: ActionName, i: nat)
    requires i < 6
    ensures |Recorded(checks, action)| == 6 == |CHECK_ORDER|
    ensures var name, r := CHECK_ORDER[i], Recorded(checks, action)[i];
            && r.name == name
            && if name == ActionRisk && action.Unknown? then r.state == Failed && r.code == UnknownActionType
               else if Reported(checks, name) then WorstAsCounted(checks, name, r)
               else r.state == Failed && r.code == MissingEvidence
  {
    HeldIsTheWorst(checks, CHECK_ORDER[i]);
    if Reported(checks, CHECK_ORDER[i]) { WorstIsCounted(checks, CHECK_ORDER[i], Held(checks, CHECK_ORDER[i])); }
  }

  // ---------------------------------------------------------------- the decision, by check

  function Position(name: CheckName): (i: nat)
    ensures i < 6 && CHECK_ORDER[i] == name
  {
    match name
    case EvidenceComplete => 0
    case SourcesFresh => 1
    case EntitiesValid => 2
    case PolicyCompliant => 3
    case NoConflicts => 4
    case ActionRisk => 5
  }

  /** The recorded state of every check. */
  ghost function States(checks: seq<CheckResult>, action: ActionName): (states: map<CheckName, CheckState>)
    ensures forall name: CheckName :: name in states
  {
    map name: CheckName :: if name == ActionRisk && action.Unknown? then Failed else Held(checks, name).state
  }

  predicate Stops(state: CheckState, name: CheckName, action: ActionName, config: AssuranceConfig) {
    state == Failed || (state == Warn && !config.WarnPermitted(action, name))
  }

  /** `recorded` lists, for each check, one entry in the state `states` gives it. */
  ghost predicate Lists(recorded: seq<CheckResult>, states: map<CheckName, CheckState>) {
    && |recorded| == 6
    && forall i :: 0 <= i < 6 ==>
         var name := CHECK_ORDER[i];
         recorded[i].name == name && name in states && recorded[i].state == states[name]
  }

  lemma RecordListsStates(checks: seq<CheckResult>, action: ActionName)
    ensures Lists(Recorded(checks, action), States(checks, action))
  {
    forall i | 0 <= i < 6 ensures Held(checks, CHECK_ORDER[i]).name == CHECK_ORDER[i] {
      HeldIsTheWorst(checks, CHECK_ORDER[i]);
    }
  }

  lemma EntryOf(recorded: seq<CheckResult>, states: map<CheckName, CheckState>, name: CheckName) returns (c: CheckResult)
    requires Lists(recorded, states)
    ensures c in recorded && c.name == name && name in states && c.state == states[name]
  {
    c := recorded[Position(name)];
    assert CHECK_ORDER[Position(name)] == name;
  }

  lemma DecisionOfList(
    recorded: seq<CheckResult>, states: map<CheckName, CheckState>, high: bool, action: ActionName, config: AssuranceConfig)
    requires Lists(recorded, states)
    ensures DecisionOf(recorded, high, action, config) == NeedsHuman <==>
              (high || exists name :: name in states && Stops(states[name], name, action, config))
    ensures DecisionOf(recorded, high, action, config) == Execute <==>
              (!high && forall name :: name in states ==> states[name] == Passed)
  {
    if name :| name in states && Stops(states[name], name, action, config) {
      var c := EntryOf(recorded, states, name);
      assert c.state == Failed || UnpermittedWarn(c, action, config);
    }
    if c :| c in recorded && (c.state == Failed || UnpermittedWarn(c, action, config)) {
      assert Stops(states[c.name], c.name, action, config);
    }
    if name :| name in states && states[name] != Passed {
      var c := EntryOf(recorded, states, name);
      assert c.state == Failed || c.state == Warn;
    }
  }

  /** The decision is a function of the six recorded states and of whether high risk blocks. */
  lemma DecisionByState(checks: seq<CheckResult>, action: ActionName, config: AssuranceConfig)
    ensures var d, states := AggregateResult(checks, action, Some(config)).decision, States(checks, action);
            var high := HighRiskBlocks(checks, action, config);
            && (d == NeedsHuman <==> (high || exists name :: name in states && Stops(states[name], name, action, config)))
            && (d == Execute <==> (!high && forall name :: name in states ==> states[name] == Passed))
  {
    RecordListsStates(checks, action);
    DecisionOfList(Recorded(checks, action), States(checks, action), HighRiskBlocks(checks, action, config), action, config);
  }

  /** Something is named as blocking exactly when a human is needed. */
  lemma BlockingIffHumanNeeded(checks: seq<CheckResult>, action: ActionName, config: Option<AssuranceConfig>)
    ensures var r := AggregateResult(checks, action, config);
            r.blocking != [] <==> r.decision == NeedsHuman
  {
    if config.Some? {
      var recorded := Recorded(checks, action);
      var high := HighRiskBlocks(checks, action, config.value);
      var names := BlockingNames(recorded, high, action, config.value);
      var picked := InCheckOrder(names);
      forall name | name in names ensures name in picked {
        assert CHECK_ORDER[Position(name)] == name;
      }
      if picked != [] { assert picked[0] in names; }
      if c :| c in recorded && c.state == Failed { assert c.name in names; }
      if high { assert ActionRisk in names; }
      if c :| c in recorded && UnpermittedWarn(c, action, config.value) {
        assert AnyFailed(recorded) || high || c.name in names;
      }
    }
  }

  /** Failing closed: without configuration, for an unknown action, when some check was not reported,
      when some report failed or carries a hard-fail code, a human is needed, whatever else was said. */
  lemma FailsClosed(checks: seq<CheckResult>, action: ActionName, config: Option<AssuranceConfig>)
    requires || config.None? || action.Unknown?
             || (exists name :: !Reported(checks, name))
             || (exists c :: c in checks && CountsAs(c) == Failed)
    ensures AggregateResult(checks, action, config).decision == NeedsHuman
  {
    if config.Some? {
      DecisionByState(checks, action, config.value);
      var name := if action.Unknown? then ActionRisk else FailedName(checks);
      assert States(checks, action)[name] == Failed;
      assert Stops(States(checks, action)[name], name, action, config.value);
    }
  }

  ghost function FailedName(checks: seq<CheckResult>): (name: CheckName)
    requires (exists name :: !Reported(checks, name)) || (exists c :: c in checks && CountsAs(c) == Failed)
    ensures Held(checks, name).state == Failed
  {
    if exists name :: !Reported(checks, name) then
      var name :| !Reported(checks, name);
      HeldIsTheWorst(checks, name);
      name
    else
      var c :| c in checks && CountsAs(c) == Failed;
      HeldIsTheWorst(checks, c.name);
      CoerceMeaning(c);
      c.name
  }

  /** The blocking list, in the fixed order without repeats, names every failure on the record, and
      nothing that neither stops nor carries the blocking risk. */
  lemma BlockingNamesTheCulprits(checks: seq<CheckResult>, action: ActionName, config: AssuranceConfig)
    ensures var r := AggregateResult(checks, action, Some(config));
            && NoRepeats(r.blocking)
            && (forall c :: c in r.checks && c.state == Failed ==> c.name in r.blocking)
            && (forall name :: name in r.blocking ==>
                  || (exists c :: c in r.checks && c.name == name && Stops(c.state, name, action, config))
                  || (name == ActionRisk && HighRiskBlocks(checks, action, config)))
  {
    CulpritsOnRecord(Recorded(checks, action), HighRiskBlocks(checks, action, config), action, config);
  }

  lemma CulpritsOnRecord(recorded: seq<CheckResult>, high: bool, action: ActionName, config: AssuranceConfig)
    ensures var blocking := InCheckOrder(BlockingNames(recorded, high, action, config));
            && NoRepeats(blocking)
            && (forall c :: c in recorded && c.state == Failed ==> c.name in blocking)
            && (forall name :: name in blocking ==>
                  || (exists c :: c in recorded && c.name == name && Stops(c.state, name, action, config))
                  || (name == ActionRisk && high))
  {
    var names := BlockingNames(recorded, high, action, config);
    PickKeepsDistinct(CHECK_ORDER, names);
    forall c | c in recorded && c.state == Failed ensures c.name in InCheckOrder(names) {
      assert CHECK_ORDER[Position(c.name)] == c.name && c.name in names;
    }
    forall name | name in names && !(name == ActionRisk && high)
      ensures exists c :: c in recorded && c.name == name && Stops(c.state, name, action, config)
    {
      var c :| c in recorded && c.name == name && (c.state == Failed || UnpermittedWarn(c, action, config));
      if c.state != Failed { assert UnpermittedWarn(c, action, config); }
      assert Stops(c.state, c.name, action, config);
    }
  }

  lemma {:induction false} PickKeepsDistinct(order: seq<CheckName>, names: set<CheckName>)
    requires NoRepeats(order)
    ensures NoRepeats(Pick(order, names))
  {
    if order != [] {
      var rest := order[1..];
      PickKeepsDistinct(rest, names);
      forall i | 0 <= i < |rest| ensures rest[i] != order[0] {
        assert order[i + 1] != order[0];
      }
    }
  }

  // ---------------------------------------------------------------- order and severity

  /** All reports of the risk check carry one and the same tier. */
  ghost predicate TiersAgree(checks: seq<CheckResult>) {
    forall a, b :: a in checks && b in checks && a.name == ActionRisk && b.name == ActionRisk ==> a.tier == b.tier
  }

  /** `graver` counts every check at least as severely, and classifies the risk alike. */
  ghost predicate NoMilder(milder: seq<CheckResult>, graver: seq<CheckResult>) {
    && (forall name :: Severity(Held(milder, name).state) <= Severity(Held(graver, name).state))
    && Held(milder, ActionRisk).tier == Held(graver, ActionRisk).tier
  }

  lemma GraverIsNeverMorePermissive(
    milder: seq<CheckResult>, graver: seq<CheckResult>, action: ActionName, config: Option<AssuranceConfig>)
    requires NoMilder(milder, graver)
    ensures Permissiveness(AggregateResult(graver, action, config).decision)
         <= Permissiveness(AggregateResult(milder, action, config).decision)
  {
    if config.Some? {
      StopsOrExecutesAlike(milder, graver, action, config.value);
    }
  }

  lemma StopsOrExecutesAlike(
    milder: seq<CheckResult>, graver: seq<CheckResult>, action: ActionName, config: AssuranceConfig)
    requires NoMilder(milder, graver)
    ensures var m, g := AggregateResult(milder, action, Some(config)).decision, AggregateResult(graver, action, Some(config)).decision;
            (m == NeedsHuman ==> g == NeedsHuman) && (g == Execute ==> m == Execute)
  {
    var before, after := States(milder, action), States(graver, action);
    assert HighRiskBlocks(milder, action, config) == HighRiskBlocks(graver, action, config);
    DecisionByState(milder, action, config);
    DecisionByState(graver, action, config);
    GraverStates(milder, graver, action);
    StatesOnlyRise(before, after, action, config);
  }

  lemma GraverStates(milder: seq<CheckResult>, graver: seq<CheckResult>, action: ActionName)
    requires NoMilder(milder, graver)
    ensures States(milder, action).Keys == States(graver, action).Keys
    ensures forall name: CheckName :: Severity(States(milder, action)[name]) <= Severity(States(graver, action)[name])
  {
  }

  lemma StatesOnlyRise(
    before: map<CheckName, CheckState>, after: map<CheckName, CheckState>, action: ActionName, config: AssuranceConfig)
    requires before.Keys == after.Keys
    requires forall name :: name in before ==> Severity(before[name]) <= Severity(after[name])
    ensures (exists name :: name in before && Stops(before[name], name, action, config)) ==>
            (exists name :: name in after && Stops(after[name], name, action, config))
    ensures (forall name :: name in after ==> after[name] == Passed) ==>
            (forall name :: name in before ==> before[name] == Passed)
  {
    if name :| name in before && Stops(before[name], name, action, config) {
      assert Stops(after[name], name, action, config);
    }
  }

  /** `d` reports the same check as `c`, with the same tier and at least the same severity. */
  predicate Outweighs(d: CheckResult, c: CheckResult) {
    d.name == c.name && d.tier == c.tier && Severity(Coerce(c).state) <= Severity(Coerce(d).state)
  }

  /** Every report in `a` is outweighed by one in `b`, and `b` reports on no check that `a` does not. */
  ghost predicate OutweighedBy(a: seq<CheckResult>, b: seq<CheckResult>) {
    && (forall c :: c in a ==> exists d :: d in b && Outweighs(d, c))
    && (forall d :: d in b ==> Reported(a, d.name))
  }

  lemma HeldTier(checks: seq<CheckResult>, c: CheckResult)
    requires TiersAgree(checks) && c in checks && c.name == ActionRisk
    ensures Held(checks, ActionRisk).tier == c.tier
  {
    HeldIsTheWorst(checks, ActionRisk);
  }

  lemma OutweighedIsNoMilder(a: seq<CheckResult>, b: seq<CheckResult>)
    requires OutweighedBy(a, b) && TiersAgree(b)
    ensures NoMilder(a, b)
  {
    forall name
      ensures Severity(Held(a, name).state) <= Severity(Held(b, name).state)
    {
      OutweighedIsHeldNoMilder(a, b, name);
    }
    OutweighedTier(a, b);
  }

  lemma OutweighedIsHeldNoMilder(a: seq<CheckResult>, b: seq<CheckResult>, name: CheckName)
    requires OutweighedBy(a, b)
    ensures Severity(Held(a, name).state) <= Severity(Held(b, name).state)
  {
    HeldIsTheWorst(a, name);
    HeldIsTheWorst(b, name);
    if Reported(a, name) {
      var c :| c in a && c.name == name && Coerce(c) == Held(a, name);
      var d :| d in b && Outweighs(d, c);
      assert Reported(b, name);
    }
  }

  lemma OutweighedTier(a: seq<CheckResult>, b: seq<CheckResult>)
    requires OutweighedBy(a, b) && TiersAgree(b)
    ensures Held(a, ActionRisk).tier == Held(b, ActionRisk).tier
  {
    HeldIsTheWorst(a, ActionRisk);
    HeldIsTheWorst(b, ActionRisk);
    if Reported(a, ActionRisk) {
      var c :| c in a && c.name == ActionRisk && Coerce(c) == Held(a, ActionRisk);
      var d :| d in b && Outweighs(d, c);
      HeldTier(b, d);
    }
  }

  /** The decision does not depend on the order in which the reports arrive. */
  lemma OrderOfReportsIsImmaterial(
    a: seq<CheckResult>, b: seq<CheckResult>, action: ActionName, config: Option<AssuranceConfig>)
    requires multiset(a) == multiset(b) && TiersAgree(a)
    ensures AggregateResult(a, action, config).decision == AggregateResult(b, action, config).decision
  {
    SameReports(a, b);
    SameReports(b, a);
    assert TiersAgree(b);
    OutweighedIsNoMilder(a, b);
    OutweighedIsNoMilder(b, a);
    GraverIsNeverMorePermissive(a, b, action, config);
    GraverIsNeverMorePermissive(b, a, action, config);
  }

  lemma SameReports(a: seq<CheckResult>, b: seq<CheckResult>)
    requires multiset(a) == multiset(b)
    ensures OutweighedBy(a, b)
    ensures forall c :: c in a ==> c in b
  {
    forall c | c in a ensures c in b && Outweighs(c, c) {
      assert c in multiset(a);
    }
    forall d | d in b ensures Reported(a, d.name) {
      assert d in multiset(b);
      assert d in a;
    }
  }

  /** A risk report that no other risk report exceeds, so that it counts when it comes first. */
  ghost predicate WorstRisk(checks: seq<CheckResult>, c: CheckResult) {
    && c in checks && c.name == ActionRisk
    && forall d :: d in checks && d.name == ActionRisk ==> Severity(Coerce(d).state) <= Severity(Coerce(c).state)
  }

  /** The tier the gate would read from this risk report is high. */
  predicate ReadsHigh(c: CheckResult, action: ActionName, config: AssuranceConfig) {
    (if c.tier.Some? then c.tier.value else config.TierFor(action)) == High
  }

  /** High risk would block, nothing else stops the action, and the gravest risk reports disagree on
      whether the risk is high. */
  ghost predicate TierIsContested(checks: seq<CheckResult>, action: ActionName, config: AssuranceConfig) {
    && action.Known? && config.highRiskRequiresHuman
    && (forall name :: !Stops(Held(checks, name).state, name, action, config))
    && exists c, d ::
         WorstRisk(checks, c) && WorstRisk(checks, d) && ReadsHigh(c, action, config) && !ReadsHigh(d, action, config)
  }

  lemma HeldIsNoMilder(a: seq<CheckResult>, b: seq<CheckResult>, name: CheckName)
    requires forall c :: c in a <==> c in b
    ensures Severity(Held(a, name).state) <= Severity(Held(b, name).state)
  {
    HeldIsTheWorst(a, name);
    HeldIsTheWorst(b, name);
    if Reported(a, name) {
      var c :| c in a && c.name == name && Coerce(c) == Held(a, name);
      assert c in b;
    } else if c :| c in b && c.name == name {
      assert c in a;
    }
  }

  lemma SameStates(a: seq<CheckResult>, b: seq<CheckResult>)
    requires multiset(a) == multiset(b)
    ensures forall name :: Held(a, name).state == Held(b, name).state
  {
    SameMembers(a, b);
    forall name ensures Held(a, name).state == Held(b, name).state {
      HeldIsNoMilder(a, b, name);
      HeldIsNoMilder(b, a, name);
    }
  }

  lemma HeldRiskIsWorst(checks: seq<CheckResult>) returns (c: CheckResult)
    requires Reported(checks, ActionRisk)
    ensures WorstRisk(checks, c) && Coerce(c) == Held(checks, ActionRisk)
  {
    HeldIsTheWorst(checks, ActionRisk);
    c :| c in checks && c.name == ActionRisk && Coerce(c) == Held(checks, ActionRisk);
  }

  /** With the risk report that counts fixed, and nothing else stopping, its tier decides. */
  lemma TierDecides(checks: seq<CheckResult>, c: CheckResult, action: ActionName, config: AssuranceConfig)
    requires action.Known? && config.highRiskRequiresHuman && Coerce(c) == Held(checks, ActionRisk)
    requires forall name :: !Stops(Held(checks, name).state, name, action, config)
    ensures AggregateResult(checks, action, Some(config)).decision == NeedsHuman <==> ReadsHigh(c, action, config)
  {
    DecisionByState(checks, action, config);
    assert States(checks, action)[ActionRisk] == Held(checks, ActionRisk).state;
  }

  lemma WithFirst(checks: seq<CheckResult>, c: CheckResult) returns (moved: seq<CheckResult>)
    requires WorstRisk(checks, c)
    ensures multiset(moved) == multiset(checks) && Held(moved, ActionRisk) == Coerce(c)
  {
    var i :| 0 <= i < |checks| && checks[i] == c;
    moved := [c] + checks[..i] + checks[i + 1..];
    assert checks == checks[..i] + [c] + checks[i + 1..];
    SameMembers(moved, checks);
    FirstWorstRiskIsHeld(moved);
  }

  lemma FirstWorstRiskIsHeld(checks: seq<CheckResult>)
    requires checks != [] && WorstRisk(checks, checks[0])
    ensures Held(checks, ActionRisk) == Coerce(checks[0])
  {
    var coerced := Coerced(checks);
    forall r | r in coerced && r.name == ActionRisk ensures Severity(r.state) <= Severity(coerced[0].state) {
      var j :| 0 <= j < |coerced| && coerced[j] == r;
      assert checks[j] in checks;
    }
    FirstWorstIsKept(coerced, ActionRisk);
  }

  ghost predicate Reordering(b: seq<CheckResult>, a: seq<CheckResult>) { multiset(b) == multiset(a) }

  ghost predicate DecidedDifferently(a: seq<CheckResult>, b: seq<CheckResult>, action: ActionName, config: AssuranceConfig) {
    AggregateResult(a, action, Some(config)).decision != AggregateResult(b, action, Some(config)).decision
  }

  /** Exactly when some other order of the same reports leads to another decision. */
  lemma OrderMattersExactly(checks: seq<CheckResult>, action: ActionName, config: AssuranceConfig)
    ensures TierIsContested(checks, action, config) <==>
              exists b :: Reordering(b, checks) && DecidedDifferently(b, checks, action, config)
  {
    if TierIsContested(checks, action, config) {
      ContestedTierShows(checks, action, config);
    }
    if b :| Reordering(b, checks) && DecidedDifferently(b, checks, action, config) {
      DifferenceIsContested(checks, b, action, config);
    }
  }

  lemma ContestedTierShows(checks: seq<CheckResult>, action: ActionName, config: AssuranceConfig)
    requires TierIsContested(checks, action, config)
    ensures exists b :: Reordering(b, checks) && DecidedDifferently(b, checks, action, config)
  {
    var c, d :| WorstRisk(checks, c) && WorstRisk(checks, d) && ReadsHigh(c, action, config) && !ReadsHigh(d, action, config);
    var a := WithFirst(checks, c);
    var b := WithFirst(checks, d);
    SameStates(a, checks);
    SameStates(b, checks);
    TierDecides(a, c, action, config);
    TierDecides(b, d, action, config);
    assert DecidedDifferently(a, checks, action, config) || DecidedDifferently(b, checks, action, config);
  }

  lemma DifferenceIsContested(checks: seq<CheckResult>, b: seq<CheckResult>, action: ActionName, config: AssuranceConfig)
    requires Reordering(b, checks) && DecidedDifferently(b, checks, action, config)
    ensures TierIsContested(checks, action, config)
  {
    SameStates(checks, b);
    SameMembers(checks, b);
    DifferenceIsInTier(checks, b, action, config);
    UnreportedRiskStops(checks, action, config);
    UnreportedRiskStops(b, action, config);
    var c := HeldRiskIsWorst(checks);
    var d := HeldRiskIsWorst(b);
    WorstAmongSame(b, checks, d);
    TierIsRead(checks, c, action, config);
    TierIsRead(b, d, action, config);
    assert ReadsHigh(c, action, config) <==> !ReadsHigh(d, action, config);
  }

  lemma WorstAmongSame(a: seq<CheckResult>, b: seq<CheckResult>, c: CheckResult)
    requires (forall x :: x in a <==> x in b) && WorstRisk(a, c)
    ensures WorstRisk(b, c)
  {
  }

  lemma TierIsRead(checks: seq<CheckResult>, c: CheckResult, action: ActionName, config: AssuranceConfig)
    requires action.Known? && Coerce(c) == Held(checks, ActionRisk)
    ensures TierOf(checks, action, config) == High <==> ReadsHigh(c, action, config)
  {
  }

  /** With the same states two decisions differ only when the tier alone decides, differently. */
  lemma DifferenceIsInTier(a: seq<CheckResult>, b: seq<CheckResult>, action: ActionName, config: AssuranceConfig)
    requires forall name :: Held(a, name).state == Held(b, name).state
    requires DecidedDifferently(a, b, action, config)
    ensures action.Known? && config.highRiskRequiresHuman
    ensures forall name :: !Stops(Held(a, name).state, name, action, config)
    ensures TierOf(a, action, config) == High <==> TierOf(b, action, config) != High
  {
    SameStateMaps(a, b, action);
    OnlyHighRiskDiffers(a, b, action, config);
    HeldStopsInStates(a, action, config);
  }

  lemma SameStateMaps(a: seq<CheckResult>, b: seq<CheckResult>, action: ActionName)
    requires forall name :: Held(a, name).state == Held(b, name).state
    ensures States(a, action) == States(b, action)
  {
  }

  lemma HeldStopsInStates(checks: seq<CheckResult>, action: ActionName, config: AssuranceConfig)
    ensures forall name: CheckName :: Stops(Held(checks, name).state, name, action, config) ==>
              Stops(States(checks, action)[name], name, action, config)
  {
  }

  lemma UnreportedRiskStops(checks: seq<CheckResult>, action: ActionName, config: AssuranceConfig)
    ensures !Reported(checks, ActionRisk) ==> Stops(Held(checks, ActionRisk).state, ActionRisk, action, config)
  {
    HeldIsTheWorst(checks, ActionRisk);
  }

  lemma OnlyHighRiskDiffers(a: seq<CheckResult>, b: seq<CheckResult>, action: ActionName, config: AssuranceConfig)
    requires States(a, action) == States(b, action) && DecidedDifferently(a, b, action, config)
    ensures HighRiskBlocks(a, action, config) != HighRiskBlocks(b, action, config)
    ensures forall name :: name in States(a, action) ==> !Stops(States(a, action)[name], name, action, config)
  {
    DecisionByState(a, action, config);
    DecisionByState(b, action, config);
  }

  /** Concretely: of two equally severe risk reports of different tiers the first counts. */
  lemma DisagreeingTiersMakeOrderMatter(config: AssuranceConfig) returns (a: seq<CheckResult>, b: seq<CheckResult>)
    requires config.highRiskRequiresHuman
    ensures multiset(a) == multiset(b)
    ensures AggregateResult(a, Known(RecordOutcome), Some(config)).decision == Execute
    ensures AggregateResult(b, Known(RecordOutcome), Some(config)).decision == NeedsHuman
  {
    var low, high := Report(ActionRisk, Passed, Ok, Some(Low)), Report(ActionRisk, Passed, Ok, Some(High));
    a, b := PassingReports() + [low, high], PassingReports() + [high, low];
    SwapLastTwo(PassingReports(), low, high);
    AllPassing(a, low, high, config);
    AllPassing(b, high, low, config);
  }

  lemma SwapLastTwo(front: seq<CheckResult>, x: CheckResult, y: CheckResult)
    ensures multiset(front + [x, y]) == multiset(front + [y, x])
  {
  }

  lemma AllPassing(checks: seq<CheckResult>, first: CheckResult, second: CheckResult, config: AssuranceConfig)
    requires checks == PassingReports() + [first, second] && config.highRiskRequiresHuman
    requires first.name == ActionRisk && first.state == Passed && first.code == Ok && first.tier.Some?
    requires second.name == ActionRisk && second.state == Passed && second.code == Ok
    ensures AggregateResult(checks, Known(RecordOutcome), Some(config)).decision ==
              if first.tier.value == High then NeedsHuman else Execute
  {
    PassingRecord(checks, first, second);
    DecisionByState(checks, Known(RecordOutcome), config);
  }

  ghost function PassingReports(): seq<CheckResult> {
    [PassedCheck(EvidenceComplete), PassedCheck(SourcesFresh), PassedCheck(EntitiesValid),
     PassedCheck(PolicyCompliant), PassedCheck(NoConflicts)]
  }

  lemma PassingRecord(checks: seq<CheckResult>, first: CheckResult, second: CheckResult)
    requires checks == PassingReports() + [first, second]
    requires first.name == ActionRisk && first.state == Passed && first.code == Ok
    requires second.name == ActionRisk && second.state == Passed && second.code == Ok
    ensures forall name :: Held(checks, name).state == Passed
    ensures Held(checks, ActionRisk) == first
  {
    assert forall c :: c in checks ==> c.state == Passed && Coerce(c) == c;
    assert checks[0] in checks && checks[1] in checks && checks[2] in checks && checks[3] in checks
           && checks[4] in checks && checks[5] in checks;
    forall name ensures Held(checks, name).state == Passed {
      HeldIsTheWorst(checks, name);
      assert checks[Position(name)].name == name;
    }
    assert Coerced(checks) == checks;
    FirstRiskIsHeld(checks, first, second);
  }

  lemma FirstRiskIsHeld(checks: seq<CheckResult>, first: CheckResult, second: CheckResult)
    requires checks == PassingReports() + [first, second]
    requires first.name == ActionRisk && first.state == Passed && second.name == ActionRisk && second.state == Passed
    ensures WorstOf(checks, ActionRisk) == Some(first)
  {
    assert checks[..6] == PassingReports() + [first] && checks[..6][..5] == PassingReports();
    WorstIsWorst(PassingReports(), ActionRisk);
    assert WorstOf(checks[..6], ActionRisk) == Some(first);
  }

  /** Making one report more severe never makes the decision more permissive. */
  lemma RaisingASeverity(
    checks: seq<CheckResult>, i: nat, state: CheckState, action: ActionName, config: Option<AssuranceConfig>)
    requires i < |checks| && TiersAgree(checks) && Severity(checks[i].state) <= Severity(state)
    ensures Permissiveness(AggregateResult(checks[i := checks[i].(state := state)], action, config).decision)
         <= Permissiveness(AggregateResult(checks, action, config).decision)
  {
    var raised := checks[i := checks[i].(state := state)];
    RaisedOutweighs(checks, i, state);
    OutweighedIsNoMilder(checks, raised);
    GraverIsNeverMorePermissive(checks, raised, action, config);
  }

  lemma RaisedOutweighs(checks: seq<CheckResult>, i: nat, state: CheckState)
    requires i < |checks| && TiersAgree(checks) && Severity(checks[i].state) <= Severity(state)
    ensures var raised := checks[i := checks[i].(state := state)]; OutweighedBy(checks, raised) && TiersAgree(raised)
  {
    var raised := checks[i := checks[i].(state := state)];
    forall c | c in checks ensures exists d :: d in raised && Outweighs(d, c) {
      var j :| 0 <= j < |checks| && checks[j] == c;
      assert raised[j] in raised && Outweighs(raised[j], c);
    }
    forall d | d in raised ensures Reported(checks, d.name) {
      var c := Unraised(checks, i, state, d);
    }
    forall a, b | a in raised && b in raised && a.name == ActionRisk && b.name == ActionRisk ensures a.tier == b.tier {
      var c := Unraised(checks, i, state, a);
      var d := Unraised(checks, i, state, b);
    }
  }

  lemma Unraised(checks: seq<CheckResult>, i: nat, state: CheckState, d: CheckResult) returns (c: CheckResult)
    requires i < |checks| && d in checks[i := checks[i].(state := state)]
    ensures c in checks && c.name == d.name && c.tier == d.tier
  {
    var raised := checks[i := checks[i].(state := state)];
    var j :| 0 <= j < |raised| && raised[j] == d;
    c := checks[j];
  }

  /** A further report for a check that was already reported never makes the decision more permissive. */
  lemma AddingAReport(checks: seq<CheckResult>, extra: CheckResult, action: ActionName, config: Option<AssuranceConfig>)
    requires TiersAgree(checks + [extra]) && Reported(checks, extra.name)
    ensures Permissiveness(AggregateResult(checks + [extra], action, config).decision)
         <= Permissiveness(AggregateResult(checks, action, config).decision)
  {
    var more := checks + [extra];
    forall c | c in checks ensures c in more && Outweighs(c, c) {
    }
    OutweighedIsNoMilder(checks, more);
    GraverIsNeverMorePermissive(checks, more, action, config);
  }

  // ---------------------------------------------------------------- the whole gate

  /** Each of the six verdicts is the only report of its check, so it is the one that counts. */
  lemma VerdictIsHeld(inputs: GateInputs, now: Stamp, config: AssuranceConfig, i: nat)
    requires i < 6
    ensures Held(GateChecks(inputs, now, config), CHECK_ORDER[i]) == GateChecks(inputs, now, config)[i]
  {
    OnlyReportIsHeld(GateChecks(inputs, now, config), i);
  }

  lemma OnlyReportIsHeld(checks: seq<CheckResult>, i: nat)
    requires |checks| == 6 && forall j :: 0 <= j < 6 ==> checks[j].name == CHECK_ORDER[j] && Coerce(checks[j]) == checks[j]
    requires i < 6
    ensures Held(checks, CHECK_ORDER[i]) == checks[i]
  {
    HeldIsTheWorst(checks, CHECK_ORDER[i]);
    assert checks[i] in checks;
    forall c | c in checks && c.name == CHECK_ORDER[i] ensures c == checks[i] {
      var j :| 0 <= j < 6 && checks[j] == c;
      assert Position(CHECK_ORDER[j]) == j && Position(CHECK_ORDER[i]) == i;
    }
  }

  // The conditions of the gate, written out.

  /** The path leads to something that is not null; false will do. */
  ghost predicate Present(facts: Value, path: Path) {
    Resolve(facts, path).Some? && !Resolve(facts, path).value.Null?
  }

  ghost predicate EveryFactPresent(inputs: GateInputs) {
    forall path :: path in inputs.requiredFacts ==> Present(inputs.providedFacts, path)
  }

  /** Of a known kind, stamped with a timezone, not from the future. */
  ghost predicate Dated(key: SourceKey, stamp: Option<Stamp>, now: Stamp) {
    !key.kind.OtherKind? && stamp.Some? && stamp.value.aware && 0 <= now.seconds - stamp.value.seconds
  }

  /** Within the limit of its kind, in seconds. */
  ghost predicate YoungEnough(kind: SourceKind, age: int, limits: FreshnessLimits) {
    match kind
    case Metar => age <= limits.metarMinutes * 60
    case Taf => age <= limits.tafMinutes * 60
    case FlightStatus => age <= limits.flightStatusMinutes * 60
    case PolicyPack => age <= limits.policyPackDays * 24 * 60 * 60
    case OtherKind(_) => false
  }

  ghost predicate Usable(key: SourceKey, stamp: Option<Stamp>, now: Stamp, limits: FreshnessLimits) {
    Dated(key, stamp, now) && YoungEnough(key.kind, now.seconds - stamp.value.seconds, limits)
  }

  ghost predicate EverySourceUsable(inputs: GateInputs, now: Stamp, config: AssuranceConfig) {
    forall key :: key in inputs.sources ==> Usable(key, inputs.sources[key], now, config.freshness)
  }

  /** The reference is known, not null or false, and does not say that it is gone or has changed. */
  ghost predicate RefResolves(ref: string, resolved: map<string, Value>) {
    && ref in resolved
    && match resolved[ref]
       case Null => false
       case Bool(b) => b
       case Dict(entries) =>
         && ("exists" in entries ==> entries["exists"] != Bool(false))
         && ("state_matches" in entries ==> entries["state_matches"] != Bool(false))
       case _ => true
  }

  ghost predicate EveryRefResolves(inputs: GateInputs) {
    forall ref :: ref in inputs.referencedRefs ==> RefResolves(ref, inputs.resolved)
  }

  ghost predicate InScope(c: Constraint, action: ActionName) {
    c.appliesTo == None || action in c.appliesTo.value
  }

  /** The field is there, must not be, or compares as asked. */
  ghost predicate Satisfied(c: Constraint, payload: Value) {
    match c.op
    case Required => Present(payload, c.field)
    case Forbidden => !Present(payload, c.field)
    case Unsupported(_) => false
    case _ => Present(payload, c.field) && Compare(c.op, Resolve(payload, c.field).value, c.expected) == Some(true)
  }

  /** The constraint does not concern the action, or can be met and is. */
  ghost predicate Met(c: Constraint, action: ActionName, payload: Value) {
    InScope(c, action) ==> !c.unsatisfiable && !c.packUnavailable && Satisfied(c, payload)
  }

  ghost predicate EveryConstraintHolds(inputs: GateInputs) {
    forall c :: c in inputs.constraints ==> Met(c, inputs.action, inputs.payload)
  }

  /** A soft constraint that can be judged, and is not satisfied. */
  ghost predicate SoftlyBreached(c: Constraint, payload: Value) {
    && c.soft && !c.unsatisfiable && !c.packUnavailable && !c.op.Unsupported? && !c.op.Required?
    && (c.op.Forbidden? || Present(payload, c.field)) && !Satisfied(c, payload)
  }

  /** Exhausted capacity of a target, or work of the same action that is neither failed, rejected nor
      skipped and has a target in common or is not scoped on one side. */
  ghost predicate InTheWay(e: LedgerEntry, action: ActionName, targets: seq<string>) {
    match e
    case Capacity(ref, available) => ref in targets && (available.None? || available.value <= 0)
    case Work(prior, existing, state) =>
      && prior == Some(action) && state != FailedTask && state != RejectedTask && state != SkippedTask
      && (existing == [] || targets == [] || exists ref :: ref in existing && ref in targets)
  }

  ghost predicate NothingConflicts(inputs: GateInputs) {
    forall e :: e in inputs.outstanding ==> !InTheWay(e, inputs.action, inputs.targetRefs)
  }

  /** An entitlement is never evaluated against nothing. */
  ghost predicate RequirementsDerived(inputs: GateInputs) {
    inputs.action == Known(EvaluateEntitlements) ==> inputs.requiredFacts != [] && inputs.constraints != []
  }

  /** High risk blocks, and the action is listed as high or not at all. */
  ghost predicate BlockingTier(action: ActionName, config: AssuranceConfig) {
    config.highRiskRequiresHuman && (action in config.riskTiers ==> config.riskTiers[action] == High)
  }

  ghost predicate Tolerates(config: AssuranceConfig, action: ActionName, check: CheckName) {
    action in config.warnAllowed && check in config.warnAllowed[action]
  }

  /** What holds of every action the gate lets through, flagged or not. */
  ghost predicate Authorisable(inputs: GateInputs, config: AssuranceConfig) {
    && inputs.action.Known?
    && EveryFactPresent(inputs)
    && EveryRefResolves(inputs)
    && NothingConflicts(inputs)
    && RequirementsDerived(inputs)
    && !BlockingTier(inputs.action, config)
  }

  /** Known staleness the config tolerates for this action, and no other source fault. */
  ghost predicate StalenessTolerated(inputs: GateInputs, now: Stamp, config: AssuranceConfig) {
    && Tolerates(config, inputs.action, SourcesFresh)
    && forall key :: key in inputs.sources ==> Dated(key, inputs.sources[key], now)
  }

  /** Only soft breaches, which the config tolerates for this action. */
  ghost predicate SoftBreachesTolerated(inputs: GateInputs, config: AssuranceConfig) {
    && Tolerates(config, inputs.action, PolicyCompliant)
    && forall c :: c in inputs.constraints ==> Met(c, inputs.action, inputs.payload) || SoftlyBreached(c, inputs.payload)
  }

  lemma FaultMeaning(key: SourceKey, stamp: Option<Stamp>, now: Stamp, limits: FreshnessLimits)
    ensures FaultOf(key, stamp, now, limits) == NoFault <==> Usable(key, stamp, now, limits)
    ensures FaultOf(key, stamp, now, limits) in {NoFault, Stale} <==> Dated(key, stamp, now)
    ensures FaultOf(key, stamp, now, limits) == NoLimit <==> key.kind.OtherKind?
    ensures FaultOf(key, stamp, now, limits) == NoTimestamp <==>
              !key.kind.OtherKind? && (stamp.None? || !stamp.value.aware)
  {
  }

  lemma SourcesVerdictMeaning(inputs: GateInputs, now: Stamp, config: AssuranceConfig)
    ensures var state := SourcesVerdict(inputs.sources, now, config, inputs.action).state;
            && (state == Passed <==> EverySourceUsable(inputs, now, config))
            && (state == Warn <==> StalenessTolerated(inputs, now, config) && !EverySourceUsable(inputs, now, config))
  {
    var limits := config.freshness;
    forall key | key in inputs.sources
      ensures Usable(key, inputs.sources[key], now, limits) <==> FaultOf(key, inputs.sources[key], now, limits) == NoFault
      ensures Dated(key, inputs.sources[key], now) <==> FaultOf(key, inputs.sources[key], now, limits) in {NoFault, Stale}
    {
      FaultMeaning(key, inputs.sources[key], now, limits);
    }
    if !EverySourceUsable(inputs, now, config) {
      var key :| key in inputs.sources && FaultOf(key, inputs.sources[key], now, limits) != NoFault;
      var rank := SourceRank(FaultOf(key, inputs.sources[key], now, limits));
      assert SomeSource(inputs.sources, now, limits, rank);
      if !StalenessTolerated(inputs, now, config) && config.WarnPermitted(inputs.action, SourcesFresh) {
        var bad :| bad in inputs.sources && FaultOf(bad, inputs.sources[bad], now, limits) !in {NoFault, Stale};
        assert SomeSource(inputs.sources, now, limits, SourceRank(FaultOf(bad, inputs.sources[bad], now, limits)));
      }
    }
  }

  /** What CheckSources reports: an unknown kind of source comes before a missing timestamp, and that before
      an age that is negative or above the limit of the kind. */
  lemma SourcesReported(sources: map<SourceKey, Option<Stamp>>, now: Stamp, config: AssuranceConfig, action: ActionName)
    ensures var r := SourcesVerdict(sources, now, config, action);
            var unknown := exists key :: key in sources && key.kind.OtherKind?;
            var undated := exists key :: key in sources && (sources[key].None? || !sources[key].value.aware);
            && (r.code == ConfigMissing <==> unknown)
            && (r.code == SourceMissingTimestamp <==> !unknown && undated)
            && (r.code == Ok <==> forall key :: key in sources ==> Usable(key, sources[key], now, config.freshness))
            && r.code in {ConfigMissing, SourceMissingTimestamp, SourceStale, Ok}
            && (r.state == Passed <==> r.code == Ok)
  {
    forall key | key in sources ensures FaultRanked(key, sources[key], now, config.freshness) {
      FaultMeaning(key, sources[key], now, config.freshness);
    }
    RanksMeaning(sources, now, config.freshness);
  }

  ghost predicate FaultRanked(key: SourceKey, stamp: Option<Stamp>, now: Stamp, limits: FreshnessLimits) {
    var rank := SourceRank(FaultOf(key, stamp, now, limits));
    && (rank == 3 <==> key.kind.OtherKind?)
    && (rank == 2 <==> !key.kind.OtherKind? && (stamp.None? || !stamp.value.aware))
    && (rank == 0 <==> Usable(key, stamp, now, limits))
  }

  lemma RanksMeaning(sources: map<SourceKey, Option<Stamp>>, now: Stamp, limits: FreshnessLimits)
    requires forall key :: key in sources ==> FaultRanked(key, sources[key], now, limits)
    ensures SomeSource(sources, now, limits, 3) <==> exists key :: key in sources && key.kind.OtherKind?
    ensures SomeSource(sources, now, limits, 2) <==>
              exists key :: key in sources && !key.kind.OtherKind? && (sources[key].None? || !sources[key].value.aware)
    ensures (exists rank :: 1 <= rank <= 3 && SomeSource(sources, now, limits, rank)) <==>
              exists key :: key in sources && !Usable(key, sources[key], now, limits)
  {
    if key :| key in sources && key.kind.OtherKind? {
      assert FaultRanked(key, sources[key], now, limits);
      assert SourceRank(FaultOf(key, sources[key], now, limits)) == 3;
    }
    if key :| key in sources && !key.kind.OtherKind? && (sources[key].None? || !sources[key].value.aware) {
      assert FaultRanked(key, sources[key], now, limits);
      assert SourceRank(FaultOf(key, sources[key], now, limits)) == 2;
    }
    if key :| key in sources && !Usable(key, sources[key], now, limits) {
      assert FaultRanked(key, sources[key], now, limits);
      assert SomeSource(sources, now, limits, SourceRank(FaultOf(key, sources[key], now, limits)));
    }
  }

  /** A constraint raises no problem exactly when it is met, and a tolerable one exactly when it is
      softly breached. */
  lemma RankMeaning(c: Constraint, action: ActionName, payload: Value)
    ensures PolicyRank(c, action, payload) == 0 <==> Met(c, action, payload)
    ensures PolicyRank(c, action, payload) <= RANK_SOFT_BREACH <==> Met(c, action, payload) || SoftlyBreached(c, payload)
  {
    assert Present(payload, c.field) <==> !Absent(Resolve(payload, c.field));
  }

  /** Why a constraint in scope is not met, from the least serious to the most. */
  datatype Breach = SoftBreach | HardBreach | FieldMissing | Unmeetable | NoPack | NoSuchOperator

  ghost predicate Breached(c: Constraint, action: ActionName, payload: Value, breach: Breach) {
    && InScope(c, action)
    && match breach
       case Unmeetable => c.unsatisfiable
       case NoPack => !c.unsatisfiable && c.packUnavailable
       case NoSuchOperator => !c.unsatisfiable && !c.packUnavailable && c.op.Unsupported?
       case FieldMissing => Judged(c) && !c.op.Forbidden? && !Present(payload, c.field)
       case HardBreach => Judged(c) && (c.op.Forbidden? || Present(payload, c.field)) && !Satisfied(c, payload) && !c.soft
       case SoftBreach => Judged(c) && (c.op.Forbidden? || Present(payload, c.field)) && !Satisfied(c, payload) && c.soft
  }

  predicate Judged(c: Constraint) { !c.unsatisfiable && !c.packUnavailable && !c.op.Unsupported? }

  lemma BreachRank(c: Constraint, action: ActionName, payload: Value)
    ensures Breached(c, action, payload, SoftBreach) <==> PolicyRank(c, action, payload) == 1
    ensures Breached(c, action, payload, HardBreach) <==> PolicyRank(c, action, payload) == 2
    ensures Breached(c, action, payload, FieldMissing) <==> PolicyRank(c, action, payload) == 3
    ensures Breached(c, action, payload, Unmeetable) <==> PolicyRank(c, action, payload) == 4
    ensures Breached(c, action, payload, NoPack) <==> PolicyRank(c, action, payload) == 5
    ensures Breached(c, action, payload, NoSuchOperator) <==> PolicyRank(c, action, payload) == 6
  {
    assert Present(payload, c.field) <==> !Absent(Resolve(payload, c.field));
  }

  ghost predicate SomeBreach(constraints: seq<Constraint>, action: ActionName, payload: Value, breach: Breach) {
    exists c :: c in constraints && Breached(c, action, payload, breach)
  }

  /** What CheckPolicy reports: the most serious breach of any constraint, and a warning only when there are
      none but soft ones. */
  lemma PolicyReported(action: ActionName, payload: Value, constraints: seq<Constraint>)
    ensures var r := PolicyVerdict(action, payload, constraints);
            var operator := SomeBreach(constraints, action, payload, NoSuchOperator);
            var pack := SomeBreach(constraints, action, payload, NoPack);
            var unmeetable := SomeBreach(constraints, action, payload, Unmeetable);
            var missing := SomeBreach(constraints, action, payload, FieldMissing);
            var hard := SomeBreach(constraints, action, payload, HardBreach);
            var soft := SomeBreach(constraints, action, payload, SoftBreach);
            if operator then r.code == UnknownRuleOperator && r.state == Failed
            else if pack then r.code == PolicyPackUnavailable && r.state == Failed
            else if unmeetable then r.code == PolicyConstraintBreach && r.state == Failed
            else if missing then r.code == MissingRequiredFact && r.state == Failed
            else if hard then r.code == PolicyConstraintBreach && r.state == Failed
            else if soft then r.code == PolicyConstraintBreach && r.state == Warn
            else r.code == Ok && r.state == Passed
  {
    forall c | c in constraints ensures BreachesRanked(c, action, payload) {
      BreachRank(c, action, payload);
    }
    WorstPolicyRankIsWorst(constraints, action, payload);
    WorstBreach(constraints, action, payload);
  }

  /** The rank says which breach it is. */
  ghost predicate BreachesRanked(c: Constraint, action: ActionName, payload: Value) {
    forall breach :: Breached(c, action, payload, breach) <==> PolicyRank(c, action, payload) == RankOf(breach)
  }

  function RankOf(breach: Breach): nat {
    match breach
    case SoftBreach => 1
    case HardBreach => 2
    case FieldMissing => 3
    case Unmeetable => 4
    case NoPack => 5
    case NoSuchOperator => 6
  }

  lemma WorstBreach(constraints: seq<Constraint>, action: ActionName, payload: Value)
    requires forall c :: c in constraints ==> BreachesRanked(c, action, payload)
    ensures var worst := WorstPolicyRank(constraints, action, payload);
            && worst <= 6
            && (forall breach :: worst == RankOf(breach) ==> SomeBreach(constraints, action, payload, breach))
            && (forall breach :: worst < RankOf(breach) ==> !SomeBreach(constraints, action, payload, breach))
  {
    WorstPolicyRankIsWorst(constraints, action, payload);
    var worst := WorstPolicyRank(constraints, action, payload);
    if worst > 0 {
      var c :| c in constraints && PolicyRank(c, action, payload) == worst;
      assert BreachesRanked(c, action, payload);
    }
  }

  lemma PolicyVerdictMeaning(inputs: GateInputs, config: AssuranceConfig)
    ensures var state := PolicyVerdict(inputs.action, inputs.payload, inputs.constraints).state;
            && (state == Passed <==> EveryConstraintHolds(inputs))
            && (state == Warn && config.WarnPermitted(inputs.action, PolicyCompliant) <==>
                  SoftBreachesTolerated(inputs, config) && !EveryConstraintHolds(inputs))
  {
    WorstPolicyRankIsWorst(inputs.constraints, inputs.action, inputs.payload);
    forall c | c in inputs.constraints
      ensures PolicyRank(c, inputs.action, inputs.payload) == 0 <==> Met(c, inputs.action, inputs.payload)
      ensures PolicyRank(c, inputs.action, inputs.payload) <= RANK_SOFT_BREACH <==>
                Met(c, inputs.action, inputs.payload) || SoftlyBreached(c, inputs.payload)
    {
      RankMeaning(c, inputs.action, inputs.payload);
    }
  }

  lemma EvidenceMeaning(required: seq<Path>, facts: Value)
    ensures FactsPresent(required, facts) <==> forall path :: path in required ==> Present(facts, path)
  {
    forall path | path in required ensures Present(facts, path) <==> !Absent(Resolve(facts, path)) {
    }
  }

  /** The reference is unknown, null or false, or says that it does not exist. */
  ghost predicate Gone(ref: string, resolved: map<string, Value>) {
    if ref !in resolved then true
    else
      match resolved[ref]
      case Null => true
      case Bool(b) => !b
      case Dict(entries) => "exists" in entries && entries["exists"] == Bool(false)
      case _ => false
  }

  /** What CheckEntities reports: a reference that is gone comes before one that changed. */
  lemma EntitiesMeaning(refs: seq<string>, resolved: map<string, Value>)
    ensures var r := EntitiesVerdict(refs, resolved);
            && (r.state == Passed <==> forall ref :: ref in refs ==> RefResolves(ref, resolved))
            && (r.state == Passed <==> r.code == Ok) && r.code in {EntityNotFound, EntityStateMismatch, Ok}
            && (r.code == EntityNotFound <==> exists ref :: ref in refs && Gone(ref, resolved))
  {
    forall ref | ref in refs
      ensures RefResolves(ref, resolved) <==> !NotFound(ref, resolved) && !Mismatched(ref, resolved)
      ensures Gone(ref, resolved) <==> NotFound(ref, resolved)
    {
    }
  }

  /** What CheckConflicts reports: work that is in the way comes before exhausted capacity. */
  lemma ConflictsMeaning(action: ActionName, targets: seq<string>, outstanding: seq<LedgerEntry>)
    ensures var r := ConflictsVerdict(action, targets, outstanding);
            && (r.state == Passed <==> forall e :: e in outstanding ==> !InTheWay(e, action, targets))
            && (r.state == Passed <==> r.code == Ok) && r.code in {DuplicateAction, CapacityUnavailable, Ok}
            && (r.code == DuplicateAction <==> exists e :: e in outstanding && e.Work? && InTheWay(e, action, targets))
  {
    forall e | e in outstanding
      ensures InTheWay(e, action, targets) <==> Duplicates(e, action, targets) || Exhausts(e, targets)
      ensures e.Work? && InTheWay(e, action, targets) <==> Duplicates(e, action, targets)
    {
    }
  }

  /** The states of the evidence, entity, conflict and risk verdicts after the vacuity guard. */
  lemma OtherVerdictsMeaning(inputs: GateInputs, now: Stamp, config: AssuranceConfig)
    ensures var checks := GateChecks(inputs, now, config);
            && (checks[0].state == Passed <==>
                  (EveryFactPresent(inputs) &&
                   (inputs.action == Known(EvaluateEntitlements) ==> inputs.requiredFacts != [])))
            && (checks[2].state == Passed <==> EveryRefResolves(inputs))
            && (checks[4].state == Passed <==> NothingConflicts(inputs))
            && checks[0].state != Warn && checks[2].state != Warn && checks[4].state != Warn
            && checks[5].state == Passed
  {
    EvidenceMeaning(inputs.requiredFacts, inputs.providedFacts);
    EntitiesMeaning(inputs.referencedRefs, inputs.resolved);
    ConflictsMeaning(inputs.action, inputs.targetRefs, inputs.outstanding);
  }

  /** The policy verdict after the vacuity guard; without constraints it cannot be a warning. */
  lemma GuardedPolicyMeaning(inputs: GateInputs, now: Stamp, config: AssuranceConfig)
    ensures var state := GateChecks(inputs, now, config)[3].state;
            var derived := inputs.action == Known(EvaluateEntitlements) ==> inputs.constraints != [];
            && (state == Passed <==> EveryConstraintHolds(inputs) && derived)
            && (state == Warn && config.WarnPermitted(inputs.action, PolicyCompliant) <==>
                  SoftBreachesTolerated(inputs, config) && !EveryConstraintHolds(inputs))
  {
    PolicyVerdictMeaning(inputs, config);
  }

  /** The six states, one for each check, of a list in the fixed order. */
  ghost function StateMap(checks: seq<CheckResult>): map<CheckName, CheckState>
    requires |checks| == 6
  {
    map[EvidenceComplete := checks[0].state, SourcesFresh := checks[1].state, EntitiesValid := checks[2].state,
        PolicyCompliant := checks[3].state, NoConflicts := checks[4].state, ActionRisk := checks[5].state]
  }

  lemma StatesOfOnlyReports(checks: seq<CheckResult>, action: ActionName)
    requires action.Known? && |checks| == 6
    requires forall i :: 0 <= i < 6 ==> Held(checks, CHECK_ORDER[i]) == checks[i]
    ensures States(checks, action) == StateMap(checks)
  {
    var states := States(checks, action);
    forall name: CheckName ensures name in StateMap(checks) && states[name] == StateMap(checks)[name] {
      StateAtPosition(checks, name);
      assert Held(checks, CHECK_ORDER[Position(name)]) == checks[Position(name)];
    }
  }

  lemma StateAtPosition(checks: seq<CheckResult>, name: CheckName)
    requires |checks| == 6
    ensures name in StateMap(checks) && StateMap(checks)[name] == checks[Position(name)].state
  {
  }

  /** With a known action the gate decides by the six verdicts and the configured tier. */
  lemma EvaluationByVerdict(inputs: GateInputs, now: Stamp, config: AssuranceConfig)
    ensures var d, states := Evaluation(inputs, now, Some(config)).decision, StateMap(GateChecks(inputs, now, config));
            var high := config.TierFor(inputs.action) == High && config.highRiskRequiresHuman;
            if inputs.action.Unknown? then d == NeedsHuman
            else
              && (d == NeedsHuman <==>
                    (high || exists name :: name in states && Stops(states[name], name, inputs.action, config)))
              && (d == Execute <==> (!high && forall name :: name in states ==> states[name] == Passed))
  {
    var checks := GateChecks(inputs, now, config);
    DecisionByState(checks, inputs.action, config);
    if inputs.action.Known? {
      forall i | 0 <= i < 6 ensures Held(checks, CHECK_ORDER[i]) == checks[i] {
        VerdictIsHeld(inputs, now, config, i);
      }
      StatesOfOnlyReports(checks, inputs.action);
      assert Held(checks, CHECK_ORDER[5]) == checks[5];
    } else {
      assert States(checks, inputs.action)[ActionRisk] == Failed;
      assert Stops(States(checks, inputs.action)[ActionRisk], ActionRisk, inputs.action, config);
    }
  }

  lemma EachOfSix(checks: seq<CheckResult>, action: ActionName, config: AssuranceConfig)
    requires |checks| == 6
    ensures var states := StateMap(checks);
            && ((forall name :: name in states ==> states[name] == Passed) <==>
                  (checks[0].state == Passed && checks[1].state == Passed && checks[2].state == Passed &&
                   checks[3].state == Passed && checks[4].state == Passed && checks[5].state == Passed))
            && ((exists name :: name in states && Stops(states[name], name, action, config)) <==>
                  (Stops(checks[0].state, EvidenceComplete, action, config) ||
                   Stops(checks[1].state, SourcesFresh, action, config) ||
                   Stops(checks[2].state, EntitiesValid, action, config) ||
                   Stops(checks[3].state, PolicyCompliant, action, config) ||
                   Stops(checks[4].state, NoConflicts, action, config) ||
                   Stops(checks[5].state, ActionRisk, action, config)))
  {
    var states := StateMap(checks);
    assert states[EvidenceComplete] == checks[0].state && states[SourcesFresh] == checks[1].state
           && states[EntitiesValid] == checks[2].state && states[PolicyCompliant] == checks[3].state
           && states[NoConflicts] == checks[4].state && states[ActionRisk] == checks[5].state;
  }

  /** With a known action and no blocking high tier: what the six verdicts must be. */
  lemma EvaluationBySixVerdicts(inputs: GateInputs, now: Stamp, config: AssuranceConfig)
    ensures var checks := GateChecks(inputs, now, config);
            var d := Evaluation(inputs, now, Some(config)).decision;
            var open := inputs.action.Known? && !BlockingTier(inputs.action, config);
            && (d == Execute <==> (open && checks[0].state == Passed && checks[1].state == Passed &&
                  checks[2].state == Passed && checks[3].state == Passed && checks[4].state == Passed))
            && (d != NeedsHuman <==> (open && checks[0].state == Passed && checks[2].state == Passed &&
                  checks[4].state == Passed && !Stops(checks[1].state, SourcesFresh, inputs.action, config) &&
                  !Stops(checks[3].state, PolicyCompliant, inputs.action, config)))
  {
    EvaluationByVerdict(inputs, now, config);
    EachOfSix(GateChecks(inputs, now, config), inputs.action, config);
    OtherVerdictsMeaning(inputs, now, config);
  }

  /** An action executes unflagged exactly when configuration exists and every condition is met. */
  lemma ExecutesExactly(inputs: GateInputs, now: Stamp, config: Option<AssuranceConfig>)
    ensures Evaluation(inputs, now, config).decision == Execute <==>
              && config.Some?
              && Authorisable(inputs, config.value)
              && EverySourceUsable(inputs, now, config.value)
              && EveryConstraintHolds(inputs)
  {
    if config.Some? {
      EvaluationBySixVerdicts(inputs, now, config.value);
      SourcesVerdictMeaning(inputs, now, config.value);
      GuardedPolicyMeaning(inputs, now, config.value);
      OtherVerdictsMeaning(inputs, now, config.value);
    }
  }

  /** It executes flagged exactly when, instead, only tolerated warnings stand in the way. */
  lemma FlagsExactly(inputs: GateInputs, now: Stamp, config: Option<AssuranceConfig>)
    ensures Evaluation(inputs, now, config).decision == ExecuteFlagged <==>
              && config.Some?
              && Authorisable(inputs, config.value)
              && (EverySourceUsable(inputs, now, config.value) || StalenessTolerated(inputs, now, config.value))
              && (EveryConstraintHolds(inputs) || SoftBreachesTolerated(inputs, config.value))
              && !(EverySourceUsable(inputs, now, config.value) && EveryConstraintHolds(inputs))
  {
    if config.Some? {
      EvaluationBySixVerdicts(inputs, now, config.value);
      SourcesVerdictMeaning(inputs, now, config.value);
      GuardedPolicyMeaning(inputs, now, config.value);
      OtherVerdictsMeaning(inputs, now, config.value);
    }
  }

  /** The tier on the record: high without configuration or for an unknown action, the configured one else, where it is configured. */
  lemma TierOfRecord(inputs: GateInputs, now: Stamp, config: Option<AssuranceConfig>)
    ensures Evaluation(inputs, now, config).tier ==
              if config.Some? && inputs.action.Known? && inputs.action in config.value.riskTiers
              then config.value.riskTiers[inputs.action] else High
  {
    if config.Some? {
      VerdictIsHeld(inputs, now, config.value, 5);
    }
  }

  /** An entitlement evaluated against nothing fails for want of a fact, or for want of a constraint by a
      conflict; the checks themselves, on nothing, would have passed. */
  lemma VacuousIsRefused(inputs: GateInputs, now: Stamp, config: AssuranceConfig)
    requires inputs.action == Known(EvaluateEntitlements)
    ensures var checks := Evaluation(inputs, now, Some(config)).checks;
            && |checks| == 6
            && (inputs.requiredFacts == [] ==> checks[0] == Report(EvidenceComplete, Failed, MissingRequiredFact, None))
            && (inputs.constraints == [] ==> checks[3] == Report(PolicyCompliant, Failed, PolicyConstraintBreach, None))
    ensures inputs.requiredFacts == [] ==> EvidenceVerdict(inputs.requiredFacts, inputs.providedFacts).state == Passed
    ensures inputs.constraints == [] ==> PolicyVerdict(inputs.action, inputs.payload, inputs.constraints).state == Passed
  {
    VerdictIsHeld(inputs, now, config, 0);
    VerdictIsHeld(inputs, now, config, 3);
  }

  /** A limit is enforced: a known figure above a hard maximum, in scope, needs a human, whatever else is
      given. */
  lemma LimitIsEnforced(inputs: GateInputs, now: Stamp, config: Option<AssuranceConfig>, c: Constraint, figure: real, limit: real)
    requires c in inputs.constraints && InScope(c, inputs.action) && c.op == AtMost && !c.soft
    requires Resolve(inputs.payload, c.field) == Some(Num(figure)) && c.expected == Num(limit)
    requires figure > limit
    ensures Evaluation(inputs, now, config).decision == NeedsHuman
  {
    NumberOrder(figure, limit);
    assert !Met(c, inputs.action, inputs.payload) && !SoftlyBreached(c, inputs.payload);
    ExecutesExactly(inputs, now, config);
    FlagsExactly(inputs, now, config);
  }

  /** And a figure within it is no obstacle: the constraint might as well not be there. */
  lemma WithinLimitIsNoObstacle(
    inputs: GateInputs, now: Stamp, config: Option<AssuranceConfig>, c: Constraint, figure: real, limit: real)
    requires c.op == AtMost && !c.unsatisfiable && !c.packUnavailable && inputs.constraints != []
    requires Resolve(inputs.payload, c.field) == Some(Num(figure)) && c.expected == Num(limit)
    requires figure <= limit
    ensures var more := inputs.(constraints := inputs.constraints + [c]);
            Evaluation(more, now, config).decision == Evaluation(inputs, now, config).decision
  {
    NumberOrder(figure, limit);
    var more := inputs.(constraints := inputs.constraints + [c]);
    assert Met(c, inputs.action, inputs.payload);
    SameConstraintsHold(inputs, more, c);
    if config.Some? { OtherConditionsSame(inputs, more, now, config.value); }
    SameConditionsDecideAlike(inputs, more, now, config);
  }

  ghost predicate SameConditions(a: GateInputs, b: GateInputs, now: Stamp, config: AssuranceConfig) {
    && Authorisable(a, config) == Authorisable(b, config)
    && EverySourceUsable(a, now, config) == EverySourceUsable(b, now, config)
    && StalenessTolerated(a, now, config) == StalenessTolerated(b, now, config)
    && EveryConstraintHolds(a) == EveryConstraintHolds(b)
    && SoftBreachesTolerated(a, config) == SoftBreachesTolerated(b, config)
  }

  lemma SameConditionsDecideAlike(a: GateInputs, b: GateInputs, now: Stamp, config: Option<AssuranceConfig>)
    requires config.Some? ==> SameConditions(a, b, now, config.value)
    ensures Evaluation(a, now, config).decision == Evaluation(b, now, config).decision
  {
    ExecutesExactly(a, now, config);
    ExecutesExactly(b, now, config);
    FlagsExactly(a, now, config);
    FlagsExactly(b, now, config);
  }

  /** The other conditions do not read the constraints, save whether there are any. */
  lemma OtherConditionsSame(inputs: GateInputs, more: GateInputs, now: Stamp, config: AssuranceConfig)
    requires more == inputs.(constraints := more.constraints) && inputs.constraints != [] && more.constraints != []
    ensures Authorisable(more, config) == Authorisable(inputs, config)
    ensures EverySourceUsable(more, now, config) == EverySourceUsable(inputs, now, config)
    ensures StalenessTolerated(more, now, config) == StalenessTolerated(inputs, now, config)
  {
  }

  lemma SameConstraintsHold(inputs: GateInputs, more: GateInputs, c: Constraint)
    requires more == inputs.(constraints := inputs.constraints + [c]) && Met(c, inputs.action, inputs.payload)
    ensures EveryConstraintHolds(more) <==> EveryConstraintHolds(inputs)
    ensures forall config :: SoftBreachesTolerated(more, config) <==> SoftBreachesTolerated(inputs, config)
  {
    forall d ensures d in more.constraints <==> d in inputs.constraints || d == c {
    }
  }
}
