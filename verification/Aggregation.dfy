/** What the action gate and the plan gate share: named check reports, and the rule that of several
    reports for one check the most severe counts, the earliest among equals. */
module Aggregation {
  import opened Prelude

  datatype Report<+N, +C> = Report(name: N, state: CheckState, code: C, tier: Option<RiskTier>)

  /** The dict entry left after assigning each report that is strictly worse than the one held. */
  function WorstOf<N(==), C>(reports: seq<Report<N, C>>, name: N): Option<Report<N, C>> {
    if reports == [] then None
    else
      var held := WorstOf(reports[..|reports| - 1], name);
      var candidate := reports[|reports| - 1];
      if candidate.name != name then held
      else if held.None? || Severity(candidate.state) > Severity(held.value.state) then Some(candidate)
      else held
  }

  ghost predicate Reported<N, C>(reports: seq<Report<N, C>>, name: N) {
    exists r :: r in reports && r.name == name
  }

  lemma {:induction false} WorstIsWorst<N, C>(reports: seq<Report<N, C>>, name: N)
    ensures WorstOf(reports, name).Some? <==> Reported(reports, name)
    ensures WorstOf(reports, name).Some? ==>
              var w := WorstOf(reports, name).value;
              && w in reports && w.name == name
              && forall r :: r in reports && r.name == name ==> Severity(r.state) <= Severity(w.state)
  {
    if reports != [] {
      var front, candidate := reports[..|reports| - 1], reports[|reports| - 1];
      WorstIsWorst(front, name);
      assert reports == front + [candidate];
      assert candidate in reports;
    }
  }

  /** A first report that no other of its name exceeds is the one that counts. */
  lemma {:induction false} FirstWorstIsKept<N, C>(reports: seq<Report<N, C>>, name: N)
    requires reports != [] && reports[0].name == name
    requires forall r :: r in reports && r.name == name ==> Severity(r.state) <= Severity(reports[0].state)
    ensures WorstOf(reports, name) == Some(reports[0])
  {
    var front, candidate := reports[..|reports| - 1], reports[|reports| - 1];
    assert candidate in reports;
    if front == [] {
      assert WorstOf(front, name) == None;
    } else {
      FirstWorstIsKept(front, name);
    }
  }
}
