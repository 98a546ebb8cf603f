/** Why a decision blocked, derived from the reason codes on the record. */
module Blocking {
  import opened Prelude
  import opened ActionContract

  /** An unmapped code is evidence, never risk. */
  function KindFor(code: ReasonCode): BlockingKind {
    match code
    case HumanApprovalRequired => Risk
    case DuplicateAction => Conflict
    case CapacityUnavailable => Conflict
    case PolicyConstraintBreach => Conflict
    case _ => Evidence
  }

  predicate KindPresent(checks: seq<CheckResult>, kind: BlockingKind) {
    || (exists c :: c in checks && c.state == Failed && KindFor(c.code) == kind)
    || (kind == Risk && exists c :: c in checks && c.code == HumanApprovalRequired)
  }

  /** The kinds present, in the order evidence, conflict, risk. */
  function KindsOf(checks: seq<CheckResult>): seq<BlockingKind> {
    (if KindPresent(checks, Evidence) then [Evidence] else [])
    + (if KindPresent(checks, Conflict) then [Conflict] else [])
    + (if KindPresent(checks, Risk) then [Risk] else [])
  }

  /** blocking_kinds */
  method BlockingKinds(result: AssuranceResult) returns (kinds: seq<BlockingKind>)
    ensures kinds == KindsOf(result.checks)
  {
    var checks := result.checks;
    var found: set<BlockingKind> := set c | c in checks && c.state == Failed :: KindFor(c.code);
    ghost var failedKinds := found;
    for i := 0 to |checks|
      invariant found == failedKinds + if exists j :: 0 <= j < i && checks[j].code == HumanApprovalRequired then {Risk} else {}
    {
      if checks[i].code == HumanApprovalRequired {
        found := found + {Risk};
      }
    }
    var order := [Evidence, Conflict, Risk];
    kinds := [];
    for i := 0 to |order|
      invariant i == 0 ==> kinds == []
      invariant i == 1 ==> kinds == KindsUpTo(found, 1)
      invariant i == 2 ==> kinds == KindsUpTo(found, 2)
      invariant i == 3 ==> kinds == KindsUpTo(found, 3)
    {
      if order[i] in found {
        kinds := kinds + [order[i]];
      }
    }
    assert forall kind :: kind in found <==> KindPresent(checks, kind);
  }

  ghost function KindsUpTo(found: set<BlockingKind>, n: nat): seq<BlockingKind> {
    (if n > 0 && Evidence in found then [Evidence] else [])
    + (if n > 1 && Conflict in found then [Conflict] else [])
    + (if n > 2 && Risk in found then [Risk] else [])
  }

  lemma KindsMembership(checks: seq<CheckResult>)
    ensures forall kind :: kind in KindsOf(checks) <==> KindPresent(checks, kind)
    ensures KindsOf(checks) == [Risk] <==>
              (!KindPresent(checks, Evidence) && !KindPresent(checks, Conflict) && KindPresent(checks, Risk))
    ensures KindsOf(checks) == [] <==> forall kind :: !KindPresent(checks, kind)
  {
    KindsInOrder(KindPresent(checks, Evidence), KindPresent(checks, Conflict), KindPresent(checks, Risk), KindsOf(checks));
  }

  /** Which codes count as what. Whatever failed and is neither a demand for approval nor one of three kinds
      of clash is for want of evidence; the kinds come in a fixed order, each at most once. */
  lemma KindsMeaning(checks: seq<CheckResult>)
    ensures var kinds := KindsOf(checks);
            && (Conflict in kinds <==> exists c :: c in checks && c.state == Failed && Clashes(c.code))
            && (Evidence in kinds <==>
                  exists c :: c in checks && c.state == Failed && !Clashes(c.code) && c.code != HumanApprovalRequired)
            && (Risk in kinds <==> exists c :: c in checks && c.code == HumanApprovalRequired)
            && (forall i, j :: 0 <= i < j < |kinds| ==>
                  (kinds[i] == Evidence && kinds[j] in {Conflict, Risk}) || (kinds[i] == Conflict && kinds[j] == Risk))
  {
    KindsMembership(checks);
    forall c | c in checks
      ensures Clashes(c.code) <==> KindFor(c.code) == Conflict
      ensures c.code == HumanApprovalRequired <==> KindFor(c.code) == Risk
    {
    }
  }

  predicate Clashes(code: ReasonCode) { code == DuplicateAction || code == CapacityUnavailable || code == PolicyConstraintBreach }

  lemma KindsInOrder(evidence: bool, conflict: bool, risk: bool, kinds: seq<BlockingKind>)
    requires kinds ==
               (if evidence then [Evidence] else []) + (if conflict then [Conflict] else []) + (if risk then [Risk] else [])
    ensures Evidence in kinds <==> evidence
    ensures Conflict in kinds <==> conflict
    ensures Risk in kinds <==> risk
    ensures kinds == [Risk] <==> (!evidence && !conflict && risk)
    ensures kinds == [] <==> (!evidence && !conflict && !risk)
  {
    if evidence { assert kinds[0] == Evidence; }
    else if conflict { assert kinds[0] == Conflict; }
  }

  predicate IsApprovable(result: AssuranceResult) { KindsOf(result.checks) == [Risk] }

  /** Approvable exactly when every failure is a demand for approval and some check makes one. */
  lemma ApprovableMeansRiskOnly(result: AssuranceResult)
    ensures IsApprovable(result) <==>
              && (forall c :: c in result.checks && c.state == Failed ==> c.code == HumanApprovalRequired)
              && exists c :: c in result.checks && c.code == HumanApprovalRequired
  {
    var checks := result.checks;
    KindsMembership(checks);
    forall c | c in checks && c.state == Failed && c.code != HumanApprovalRequired
      ensures KindPresent(checks, Evidence) || KindPresent(checks, Conflict)
    {
      assert KindFor(c.code) == Evidence || KindFor(c.code) == Conflict;
    }
  }
}
