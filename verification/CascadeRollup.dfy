/** Group-level cascade figures folded from what the services recorded. */
module CascadeRollup {
  import opened Prelude

  datatype Mechanism = Positioning | OnwardDuty | SecondPairing | Operating | DownstreamFlight | Unlisted(text: string)

  function Precedence(m: Mechanism): nat {
    match m
    case Positioning => 0
    case OnwardDuty => 1
    case SecondPairing => 2
    case Operating => 3
    case DownstreamFlight => 4
    case Unlisted(_) => 99
  }

  /** `rest` stands for the display fields of a pairing. */
  datatype Impact = Impact(reference: string, mechanism: Mechanism, atRisk: bool, rest: string)

  datatype ConnectionPayload = ConnectionPayload(incident: nat, bookings: seq<Option<int>>)

  datatype CrewPayload = CrewPayload(incident: nat, impacts: seq<Impact>)

  /** Distinct bookings, one impact for each pairing, and the incidents that were assessed. */
  datatype Rollup = Rollup(
    bookings: set<int>,
    best: map<string, Impact>,
    assessedConnections: set<nat>,
    assessedCrew: set<nat>)

  // ---------------------------------------------------------------- the fold

  function BookingsOf(payloads: seq<ConnectionPayload>): set<int> {
    set p, b | p in payloads && b in p.bookings && b.Some? :: b.value
  }

  /** The distinct bookings of one payload. */
  function Distinct(bookings: seq<Option<int>>): set<int> {
    set b | b in bookings && b.Some? :: b.value
  }

  /** best[reference] after one more impact: the first of the highest precedence is held. */
  function Take(best: map<string, Impact>, impact: Impact): map<string, Impact> {
    if !impact.atRisk then best
    else if impact.reference !in best || Precedence(impact.mechanism) < Precedence(best[impact.reference].mechanism)
    then best[impact.reference := impact]
    else best
  }

  function Best(impacts: seq<Impact>): map<string, Impact> {
    if impacts == [] then map[] else Take(Best(impacts[..|impacts| - 1]), impacts[|impacts| - 1])
  }

  function AllImpacts(payloads: seq<CrewPayload>): seq<Impact> {
    if payloads == [] then [] else AllImpacts(payloads[..|payloads| - 1]) + payloads[|payloads| - 1].impacts
  }

  function Fold(connections: seq<ConnectionPayload>, crew: seq<CrewPayload>): Rollup {
    Rollup(BookingsOf(connections), Best(AllImpacts(crew)),
           set p | p in connections :: p.incident, set p | p in crew :: p.incident)
  }

  /** cascade_rollup, from the recorded payloads on. */
  method RollUp(connections: seq<ConnectionPayload>, crew: seq<CrewPayload>) returns (r: Rollup)
    ensures r == Fold(connections, crew)
  {
    var bookings := UnionBookings(connections);
    var best := BestImpacts(crew);
    return Rollup(bookings, best, set p | p in connections :: p.incident, set p | p in crew :: p.incident);
  }

  /** The booking loop. */
  method UnionBookings(connections: seq<ConnectionPayload>) returns (bookings: set<int>)
    ensures bookings == BookingsOf(connections)
  {
    bookings := {};
    for i := 0 to |connections|
      invariant bookings == BookingsOf(connections[..i])
    {
      var payload := connections[i];
      assert connections[..i + 1] == connections[..i] + [payload];
      for k := 0 to |payload.bookings|
        invariant bookings == BookingsOf(connections[..i]) + Distinct(payload.bookings[..k])
      {
        assert payload.bookings[..k + 1] == payload.bookings[..k] + [payload.bookings[k]];
        if payload.bookings[k].Some? {
          bookings := bookings + {payload.bookings[k].value};
        }
      }
      assert payload.bookings[..|payload.bookings|] == payload.bookings;
    }
    assert connections[..|connections|] == connections;
  }

  /** The pairing loop. */
  method BestImpacts(crew: seq<CrewPayload>) returns (best: map<string, Impact>)
    ensures best == Best(AllImpacts(crew))
  {
    best := map[];
    for i := 0 to |crew|
      invariant best == Best(AllImpacts(crew[..i]))
    {
      assert crew[..i + 1][..i] == crew[..i];
      BestContinues(AllImpacts(crew[..i]), crew[i].impacts);
      best := TakeImpacts(best, crew[i].impacts);
    }
    assert crew[..|crew|] == crew;
  }

  /** Its inner loop, over the impacts of one payload. */
  method TakeImpacts(held: map<string, Impact>, impacts: seq<Impact>) returns (best: map<string, Impact>)
    ensures best == TakeAll(held, impacts)
  {
    best := held;
    for k := 0 to |impacts|
      invariant best == TakeAll(held, impacts[..k])
    {
      assert impacts[..k + 1][..k] == impacts[..k];
      var candidate := impacts[k];
      if !candidate.atRisk {
        continue;
      }
      if candidate.reference !in best
         || Precedence(candidate.mechanism) < Precedence(best[candidate.reference].mechanism) {
        best := best[candidate.reference := candidate];
      }
    }
    assert impacts[..|impacts|] == impacts;
  }

  function TakeAll(held: map<string, Impact>, impacts: seq<Impact>): map<string, Impact> {
    if impacts == [] then held else Take(TakeAll(held, impacts[..|impacts| - 1]), impacts[|impacts| - 1])
  }

  lemma {:induction false} BestContinues(a: seq<Impact>, b: seq<Impact>)
    ensures Best(a + b) == TakeAll(Best(a), b)
  {
    if b == [] {
      assert a + b == a;
    } else {
      assert (a + b)[..|a + b| - 1] == a + b[..|b| - 1];
      BestContinues(a, b[..|b| - 1]);
    }
  }

  // ---------------------------------------------------------------- merging

  function MergeBest(left: map<string, Impact>, right: map<string, Impact>): map<string, Impact> {
    map k | k in left.Keys + right.Keys ::
      if k !in right || (k in left && Precedence(left[k].mechanism) <= Precedence(right[k].mechanism))
      then left[k] else right[k]
  }

  function Merge(left: Rollup, right: Rollup): Rollup {
    Rollup(left.bookings + right.bookings, MergeBest(left.best, right.best),
           left.assessedConnections + right.assessedConnections, left.assessedCrew + right.assessedCrew)
  }

  lemma MergeTake(left: map<string, Impact>, right: map<string, Impact>, impact: Impact)
    ensures MergeBest(left, Take(right, impact)) == Take(MergeBest(left, right), impact)
  {
  }

  lemma {:induction false} BestOfConcatenation(a: seq<Impact>, b: seq<Impact>)
    ensures Best(a + b) == MergeBest(Best(a), Best(b))
  {
    if b == [] {
      assert a + b == a;
      assert MergeBest(Best(a), map[]) == Best(a);
    } else {
      var front, last := b[..|b| - 1], b[|b| - 1];
      assert (a + b)[..|a + b| - 1] == a + front;
      BestOfConcatenation(a, front);
      MergeTake(Best(a), Best(front), last);
    }
  }

  lemma {:induction false} ImpactsOfConcatenation(a: seq<CrewPayload>, b: seq<CrewPayload>)
    ensures AllImpacts(a + b) == AllImpacts(a) + AllImpacts(b)
  {
    if b == [] {
      assert a + b == a;
    } else {
      assert (a + b)[..|a + b| - 1] == a + b[..|b| - 1];
      ImpactsOfConcatenation(a, b[..|b| - 1]);
    }
  }

  /** Rolling up two batches together is rolling up each and merging. */
  lemma FoldIsAHomomorphism(
    c1: seq<ConnectionPayload>, c2: seq<ConnectionPayload>, k1: seq<CrewPayload>, k2: seq<CrewPayload>)
    ensures Fold(c1 + c2, k1 + k2) == Merge(Fold(c1, k1), Fold(c2, k2))
  {
    ImpactsOfConcatenation(k1, k2);
    BestOfConcatenation(AllImpacts(k1), AllImpacts(k2));
    assert BookingsOf(c1 + c2) == BookingsOf(c1) + BookingsOf(c2);
  }

  // ---------------------------------------------------------------- what is held

  /** A pairing is listed exactly when some impact puts it at risk, under an impact of least precedence. */
  lemma {:induction false} BestIsLeast(impacts: seq<Impact>)
    ensures forall ref :: ref in Best(impacts) <==> exists x :: x in impacts && x.atRisk && x.reference == ref
    ensures forall ref :: ref in Best(impacts) ==>
              Best(impacts)[ref] in impacts && Best(impacts)[ref].atRisk && Best(impacts)[ref].reference == ref
    ensures forall x :: x in impacts && x.atRisk ==>
              Precedence(Best(impacts)[x.reference].mechanism) <= Precedence(x.mechanism)
  {
    if impacts != [] {
      var front, last := impacts[..|impacts| - 1], impacts[|impacts| - 1];
      BestIsLeast(front);
      assert impacts == front + [last];
    }
  }

  /** The five listed mechanisms from the gravest down, any of them before one that is not listed. */
  predicate Outranks(m: Mechanism, n: Mechanism) {
    match m
    case Positioning => !n.Positioning?
    case OnwardDuty => !n.Positioning? && !n.OnwardDuty?
    case SecondPairing => n.Operating? || n.DownstreamFlight? || n.Unlisted?
    case Operating => n.DownstreamFlight? || n.Unlisted?
    case DownstreamFlight => n.Unlisted?
    case Unlisted(_) => false
  }

  ghost predicate AtRiskFrom(crew: seq<CrewPayload>, x: Impact) {
    x.atRisk && exists p :: p in crew && x in p.impacts
  }

  /** Whatever was recorded, in whatever order: a pairing at risk is held under a mechanism recorded for it
      that no other recorded for it outranks, and an impact that outranks all others for its pairing is
      the one held. */
  lemma HeldIsNotOutranked(connections: seq<ConnectionPayload>, crew: seq<CrewPayload>, x: Impact)
    requires AtRiskFrom(crew, x)
    ensures var best := Fold(connections, crew).best;
            && x.reference in best && AtRiskFrom(crew, best[x.reference]) && best[x.reference].reference == x.reference
            && !Outranks(x.mechanism, best[x.reference].mechanism)
            && ((forall y :: AtRiskFrom(crew, y) && y.reference == x.reference && y != x ==> Outranks(x.mechanism, y.mechanism))
                  ==> best[x.reference] == x)
  {
    var impacts := AllImpacts(crew);
    BestIsLeast(impacts);
    ImpactsComeFromPayloads(crew, x);
    ImpactsComeFromPayloads(crew, Best(impacts)[x.reference]);
  }

  lemma MergeSeen(best: map<string, Impact>, again: seq<Impact>)
    requires forall x :: x in again && x.atRisk ==>
               x.reference in best && Precedence(best[x.reference].mechanism) <= Precedence(x.mechanism)
    ensures MergeBest(best, Best(again)) == best
  {
    BestIsLeast(again);
  }

  lemma {:induction false} ImpactsOfMember(payloads: seq<CrewPayload>, p: CrewPayload)
    requires p in payloads
    ensures forall x :: x in p.impacts ==> x in AllImpacts(payloads)
  {
    if p != payloads[|payloads| - 1] {
      assert payloads == payloads[..|payloads| - 1] + [payloads[|payloads| - 1]];
      ImpactsOfMember(payloads[..|payloads| - 1], p);
    }
  }

  /** Recording an assessment again changes nothing. */
  lemma RecordingAgainChangesNothing(
    connections: seq<ConnectionPayload>, crew: seq<CrewPayload>, c: ConnectionPayload, k: CrewPayload)
    requires c in connections && k in crew
    ensures Fold(connections + [c], crew + [k]) == Fold(connections, crew)
  {
    FoldIsAHomomorphism(connections, [c], crew, [k]);
    ImpactsAgain(crew, k);
    BookingsAgain(connections, c);
  }

  lemma ImpactsAgain(crew: seq<CrewPayload>, k: CrewPayload)
    requires k in crew
    ensures MergeBest(Best(AllImpacts(crew)), Best(AllImpacts([k]))) == Best(AllImpacts(crew))
  {
    ImpactsOfMember(crew, k);
    BestIsLeast(AllImpacts(crew));
    assert [k][..0] == [] && AllImpacts([k]) == k.impacts;
    MergeSeen(Best(AllImpacts(crew)), k.impacts);
  }

  lemma BookingsAgain(connections: seq<ConnectionPayload>, c: ConnectionPayload)
    requires c in connections
    ensures BookingsOf(connections) + BookingsOf([c]) == BookingsOf(connections)
  {
  }

  /** With the listed mechanisms only, each pairing's mechanism does not depend on the order of the impacts. */
  lemma MechanismIgnoresOrder(a: seq<Impact>, b: seq<Impact>)
    requires multiset(a) == multiset(b) && forall x :: x in a ==> !x.mechanism.Unlisted?
    ensures Best(a).Keys == Best(b).Keys
    ensures forall ref :: ref in Best(a) ==> Best(a)[ref].mechanism == Best(b)[ref].mechanism
  {
    SameMembers(a, b);
    BestIsLeast(a);
    BestIsLeast(b);
  }

  lemma {:induction false} ImpactsComeFromPayloads(payloads: seq<CrewPayload>, x: Impact)
    ensures x in AllImpacts(payloads) <==> exists p :: p in payloads && x in p.impacts
  {
    if payloads != [] {
      var front, last := payloads[..|payloads| - 1], payloads[|payloads| - 1];
      ImpactsComeFromPayloads(front, x);
      assert payloads == front + [last];
    }
  }

  lemma SameImpacts(a: seq<CrewPayload>, b: seq<CrewPayload>)
    requires forall p :: p in a <==> p in b
    ensures forall x :: x in AllImpacts(a) <==> x in AllImpacts(b)
  {
    forall x ensures x in AllImpacts(a) <==> x in AllImpacts(b) {
      ImpactsComeFromPayloads(a, x);
      ImpactsComeFromPayloads(b, x);
    }
  }

  /** The figures of a group do not depend on the order of the recorded payloads, and with the listed
      mechanisms only neither does the mechanism of any pairing. */
  lemma FoldIgnoresOrder(
    c: seq<ConnectionPayload>, d: seq<ConnectionPayload>, k: seq<CrewPayload>, l: seq<CrewPayload>)
    requires multiset(c) == multiset(d) && multiset(k) == multiset(l)
    ensures var r, q := Fold(c, k), Fold(d, l);
            && r.bookings == q.bookings && r.best.Keys == q.best.Keys
            && r.assessedConnections == q.assessedConnections && r.assessedCrew == q.assessedCrew
            && ((forall x :: x in AllImpacts(k) ==> !x.mechanism.Unlisted?) ==>
                  forall ref :: ref in r.best ==> r.best[ref].mechanism == q.best[ref].mechanism)
  {
    SameMembers(c, d);
    SameMembers(k, l);
    SameImpacts(k, l);
    BestIsLeast(AllImpacts(k));
    BestIsLeast(AllImpacts(l));
    assert BookingsOf(c) == BookingsOf(d);
  }

  /** An impact that puts its pairing at risk and that no other for the pairing precedes. */
  ghost predicate Least(impacts: seq<Impact>, x: Impact) {
    && x in impacts && x.atRisk
    && forall y :: y in impacts && y.atRisk && y.reference == x.reference ==>
         Precedence(x.mechanism) <= Precedence(y.mechanism)
  }

  /** Two impacts of least precedence for the pairing name different mechanisms. */
  ghost predicate Tied(impacts: seq<Impact>, reference: string) {
    exists x, y ::
      Least(impacts, x) && Least(impacts, y) && x.reference == y.reference == reference && x.mechanism != y.mechanism
  }

  lemma BestIsALeast(impacts: seq<Impact>, reference: string)
    requires reference in Best(impacts)
    ensures Least(impacts, Best(impacts)[reference]) && Best(impacts)[reference].reference == reference
  {
    BestIsLeast(impacts);
  }

  /** Of the impacts of least precedence the first is held. */
  lemma {:induction false} FirstLeastIsHeld(impacts: seq<Impact>)
    requires impacts != [] && Least(impacts, impacts[0])
    ensures impacts[0].reference in Best(impacts) && Best(impacts)[impacts[0].reference] == impacts[0]
  {
    var front, last := impacts[..|impacts| - 1], impacts[|impacts| - 1];
    assert last in impacts;
    if front == [] {
      assert Best(front) == map[];
    } else {
      assert Least(front, front[0]);
      FirstLeastIsHeld(front);
    }
  }

  ghost predicate HeldWith(impacts: seq<Impact>, reference: string, mechanism: Mechanism) {
    reference in Best(impacts) && Best(impacts)[reference].mechanism == mechanism
  }

  lemma MovedToFront(impacts: seq<Impact>, x: Impact) returns (moved: seq<Impact>)
    requires Least(impacts, x)
    ensures multiset(moved) == multiset(impacts) && HeldWith(moved, x.reference, x.mechanism)
  {
    var i :| 0 <= i < |impacts| && impacts[i] == x;
    moved := [x] + impacts[..i] + impacts[i + 1..];
    assert impacts == impacts[..i] + [x] + impacts[i + 1..];
    SameMembers(moved, impacts);
    FirstLeastIsHeld(moved);
  }

  ghost predicate Reordered(impacts: seq<Impact>, a: seq<Impact>, b: seq<Impact>) {
    multiset(a) == multiset(b) == multiset(impacts)
  }

  /** Exactly when the order of the impacts can change the mechanism of a pairing; it takes two
      mechanisms outside the list. */
  lemma MechanismDependsOnOrderExactly(impacts: seq<Impact>, reference: string)
    ensures Tied(impacts, reference) <==>
              exists a, b, m, n :: Reordered(impacts, a, b) && m != n && HeldWith(a, reference, m) && HeldWith(b, reference, n)
    ensures Tied(impacts, reference) ==> exists x :: x in impacts && x.reference == reference && x.mechanism.Unlisted?
  {
    if Tied(impacts, reference) {
      var x, y :|
        Least(impacts, x) && Least(impacts, y) && x.reference == y.reference == reference && x.mechanism != y.mechanism;
      var a := MovedToFront(impacts, x);
      var b := MovedToFront(impacts, y);
      assert Reordered(impacts, a, b);
    }
    if a, b, m, n :| Reordered(impacts, a, b) && m != n && HeldWith(a, reference, m) && HeldWith(b, reference, n) {
      SameMembers(a, impacts);
      SameMembers(b, impacts);
      BestIsALeast(a, reference);
      BestIsALeast(b, reference);
      assert Least(impacts, Best(a)[reference]) && Least(impacts, Best(b)[reference]);
    }
  }

  /** Concretely: two unlisted mechanisms rank alike, and then the first one recorded wins. */
  lemma UnlistedMechanismsDependOnOrder(reference: string, rest: string)
    ensures var x, y := Impact(reference, Unlisted("x"), true, rest), Impact(reference, Unlisted("y"), true, rest);
            Best([x, y])[reference].mechanism == Unlisted("x") && Best([y, x])[reference].mechanism == Unlisted("y")
  {
    var x, y := Impact(reference, Unlisted("x"), true, rest), Impact(reference, Unlisted("y"), true, rest);
    assert [x, y][..1] == [x] && [y, x][..1] == [y] && [x][..0] == [] && [y][..0] == [];
    assert Best([x]) == map[reference := x] && Best([y]) == map[reference := y];
  }

  // ---------------------------------------------------------------- counting

  function SumOfCounts(payloads: seq<ConnectionPayload>): nat {
    if payloads == [] then 0 else SumOfCounts(payloads[..|payloads| - 1]) + |payloads[|payloads| - 1].bookings|
  }

  lemma {:induction false} DistinctAtMostLength(bookings: seq<Option<int>>)
    ensures |Distinct(bookings)| <= |bookings|
  {
    if bookings == [] {
      assert Distinct(bookings) == {};
    } else {
      var front, last := bookings[..|bookings| - 1], bookings[|bookings| - 1];
      DistinctAtMostLength(front);
      assert bookings == front + [last];
      assert Distinct(bookings) == Distinct(front) + if last.Some? then {last.value} else {};
    }
  }

  /** The union never counts more than the sum of the incidents' own counts. */
  lemma {:induction false} UnionAtMostSum(payloads: seq<ConnectionPayload>)
    ensures |BookingsOf(payloads)| <= SumOfCounts(payloads)
  {
    if payloads == [] {
      assert BookingsOf(payloads) == {};
    } else {
      var front, last := payloads[..|payloads| - 1], payloads[|payloads| - 1];
      UnionAtMostSum(front);
      DistinctAtMostLength(last.bookings);
      assert payloads == front + [last];
      assert BookingsOf(payloads) == BookingsOf(front) + Distinct(last.bookings);
    }
  }

  /** is_complete compares counts. */
  predicate IsComplete(r: Rollup, incidents: set<nat>, flightsWithoutIncident: set<nat>) {
    && |incidents| > 0
    && |r.assessedConnections| == |incidents|
    && |r.assessedCrew| == |incidents|
    && flightsWithoutIncident == {}
  }

  /** Payloads come from the group's own incidents only; comparing the counts then says that every
      incident of the group was assessed both ways, and every declared flight has one. */
  lemma CompleteMeansEveryIncidentAssessed(
    connections: seq<ConnectionPayload>, crew: seq<CrewPayload>, incidentFlights: map<nat, nat>, members: set<nat>)
    requires forall p :: p in connections ==> p.incident in incidentFlights
    requires forall p :: p in crew ==> p.incident in incidentFlights
    ensures IsComplete(Fold(connections, crew), incidentFlights.Keys, members - incidentFlights.Values) <==>
              && incidentFlights.Keys != {}
              && (forall i :: i in incidentFlights ==> exists p :: p in connections && p.incident == i)
              && (forall i :: i in incidentFlights ==> exists p :: p in crew && p.incident == i)
              && members <= incidentFlights.Values
  {
    var r, incidents, covered := Fold(connections, crew), incidentFlights.Keys, incidentFlights.Values;
    CountsMatchExactly(r.assessedConnections, incidents);
    CountsMatchExactly(r.assessedCrew, incidents);
    assert forall i :: i in r.assessedConnections <==> exists p :: p in connections && p.incident == i;
    assert forall i :: i in r.assessedCrew <==> exists p :: p in crew && p.incident == i;
    NothingLeft(members, covered);
  }

  lemma NothingLeft(members: set<nat>, covered: set<nat>)
    ensures members - covered == {} <==> members <= covered
  {
    forall m | m in members ensures m in members - covered <==> m !in covered {
    }
  }

  lemma CountsMatchExactly(assessed: set<nat>, incidents: set<nat>)
    requires assessed <= incidents
    ensures |assessed| == |incidents| <==> forall i :: i in incidents ==> i in assessed
  {
    SubsetSize(assessed, incidents);
    if forall i :: i in incidents ==> i in assessed { assert assessed == incidents; }
  }
}
