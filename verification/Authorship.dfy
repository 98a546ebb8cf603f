/** Who wrote a proposal, and the constraints that refuse claims the author was not entitled to make. */
module Authorship {
  import opened Prelude
  import opened Aggregation
  import opened Values
  import opened ActionContract
  import opened ActionChecks
  import ActionGate
  import GateLaws
  import Approval

  datatype Author = Deterministic | Model

  /** The versioned authorship rules. */
  datatype Authority = Authority(
    systemFields: seq<string>,
    systemFieldsByAction: map<ActionName, seq<string>>,
    requireCorroboration: bool)
  {
    function Declared(action: ActionName): seq<string> {
      systemFields + if action in systemFieldsByAction then systemFieldsByAction[action] else []
    }

    /** system_fields_for */
    function SystemFieldsFor(action: ActionName): seq<string> { FirstOccurrences(Declared(action)) }
  }

  /** What a caller supplies about one proposal. `authority` is None when the rules cannot be loaded,
      `knownRefs` is None when no evidence set was supplied. */
  datatype Proposal = Proposal(
    author: Option<Author>,
    authority: Option<Authority>,
    proposedRefs: seq<string>,
    knownRefs: Option<seq<string>>)

  /** A constraint no payload can satisfy. */
  const REFUSAL: Constraint := Constraint(None, true, false, Unsupported(""), [""], Null, false)

  /** Reserved for every action, or for this one. */
  ghost predicate Reserved(field: string, action: ActionName, authority: Authority) {
    || field in authority.systemFields
    || (action in authority.systemFieldsByAction && field in authority.systemFieldsByAction[action])
  }

  ghost predicate AssertsSystemField(action: ActionName, payload: Value, authority: Authority) {
    payload.Dict? && exists field :: field in payload.entries && Reserved(field, action, authority)
  }

  ghost predicate InventsCitation(proposal: Proposal) {
    && proposal.authority.Some? && proposal.authority.value.requireCorroboration && proposal.knownRefs.Some?
    && exists ref :: ref in proposal.proposedRefs && ref !in proposal.knownRefs.value
  }

  /** The author is a model and claims what only the system may claim, or nobody can tell. */
  ghost predicate Overreaches(action: ActionName, payload: Value, proposal: Proposal) {
    && proposal.author == Some(Model)
    && (proposal.authority.None? || AssertsSystemField(action, payload, proposal.authority.value) || InventsCitation(proposal))
  }

  /** authorship_constraints */
  method AuthorshipConstraints(action: ActionName, payload: Value, proposal: Proposal) returns (r: seq<Constraint>)
    ensures forall c :: c in r ==> c == REFUSAL
    ensures r != [] <==> Overreaches(action, payload, proposal)
  {
    if proposal.author != Some(Model) {
      return [];
    }
    if proposal.authority.None? {
      return [REFUSAL];
    }
    var authority := proposal.authority.value;
    r := [];

    var reserved := authority.SystemFieldsFor(action);
    FirstOccurrencesIsASet(authority.Declared(action));
    var asserted := set field | field in reserved && payload.Dict? && field in payload.entries;
    assert asserted != {} <==> AssertsSystemField(action, payload, authority) by {
      if AssertsSystemField(action, payload, authority) {
        var field :| field in payload.entries && Reserved(field, action, authority);
        assert field in authority.Declared(action) && field in asserted;
      }
      if asserted != {} {
        var field :| field in asserted;
        assert field in authority.Declared(action) && Reserved(field, action, authority);
      }
    }
    if asserted != {} {
      r := r + [REFUSAL];
    }

    if authority.requireCorroboration && proposal.knownRefs.Some? {
      var uncorroborated := set ref | ref in proposal.proposedRefs && ref !in proposal.knownRefs.value;
      assert uncorroborated != {} <==> InventsCitation(proposal) by {
        if InventsCitation(proposal) {
          var ref :| ref in proposal.proposedRefs && ref !in proposal.knownRefs.value;
          assert ref in uncorroborated;
        }
      }
      if uncorroborated != {} {
        r := r + [REFUSAL];
      }
    }
  }

  /** Once a refusal is among the constraints no other input matters: a human is needed, the block is
      not approvable, and the failure is on the record. */
  lemma RefusalIsFinal(inputs: GateInputs, now: Stamp, config: Option<AssuranceConfig>)
    requires REFUSAL in inputs.constraints
    ensures var r := ActionGate.Evaluation(inputs, now, config);
            && r.decision == NeedsHuman
            && ActionGate.AnyFailed(r.checks)
            && Approval.MayApproveAction(r).Refused?
            && Approval.MayApproveAction(r).refusal != Approval.NothingToApprove
  {
    var r := ActionGate.Evaluation(inputs, now, config);
    if config.None? {
      assert r.checks[0] in r.checks;
    } else {
      RefusalStops(inputs, now, config.value);
    }
    Approval.ApprovalNeverCoversAFailure(inputs, now, config);
  }

  lemma RefusalStops(inputs: GateInputs, now: Stamp, config: AssuranceConfig)
    requires REFUSAL in inputs.constraints
    ensures var r := ActionGate.Evaluation(inputs, now, Some(config));
            r.decision == NeedsHuman && ActionGate.AnyFailed(r.checks)
  {
    var r := ActionGate.Evaluation(inputs, now, Some(config));
    RefusalFailsPolicy(inputs);
    GateLaws.EvaluationBySixVerdicts(inputs, now, config);
    Approval.RecordOfVerdicts(inputs, now, config);
    assert r.checks[3] == ActionGate.GateChecks(inputs, now, config)[3] && r.checks[3] in r.checks;
  }

  lemma RefusalFailsPolicy(inputs: GateInputs)
    requires REFUSAL in inputs.constraints
    ensures PolicyVerdict(inputs.action, inputs.payload, inputs.constraints).state == Failed
  {
    WorstPolicyRankIsWorst(inputs.constraints, inputs.action, inputs.payload);
    assert PolicyRank(REFUSAL, inputs.action, inputs.payload) == RANK_UNSATISFIABLE;
  }

  /** The gate asked about a proposal: its constraints are the caller's plus those of its authorship. */
  method EvaluateProposal(inputs: GateInputs, proposal: Proposal, now: Stamp, config: Option<AssuranceConfig>)
    returns (result: AssuranceResult)
    ensures Overreaches(inputs.action, inputs.payload, proposal) ==>
              result.decision == NeedsHuman && Approval.MayApproveAction(result).Refused?
    ensures !Overreaches(inputs.action, inputs.payload, proposal) ==>
              result == ActionGate.Evaluation(inputs, now, config)
  {
    var added := AuthorshipConstraints(inputs.action, inputs.payload, proposal);
    var asked := inputs.(constraints := inputs.constraints + added);
    result := ActionGate.Evaluate(asked, now, config);
    if Overreaches(inputs.action, inputs.payload, proposal) {
      assert added[0] in asked.constraints;
      RefusalIsFinal(asked, now, config);
    } else {
      assert asked == inputs;
    }
  }
}
