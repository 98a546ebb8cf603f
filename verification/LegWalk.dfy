/** The recursive query over pairing legs: from every leg on an affected flight, walk to the next leg
    of the same pairing until there is none. */
module LegWalk {
  import opened Prelude

  datatype Leg = Leg(id: nat, pairing: nat, order: int, flight: nat)

  /** Leg ids are a primary key, and a pairing has at most one leg of each order. */
  ghost predicate Keyed(legs: set<Leg>) {
    && (forall a, b :: a in legs && b in legs && a.id == b.id ==> a == b)
    && (forall a, b :: a in legs && b in legs && a.pairing == b.pairing && a.order == b.order ==> a == b)
  }

  predicate Follows(next: Leg, leg: Leg) { next.pairing == leg.pairing && next.order == leg.order + 1 }

  /** The recursive term of the query. */
  ghost function Onward(legs: set<Leg>, wave: set<Leg>): set<Leg> {
    set next | next in legs && exists leg :: leg in wave && Follows(next, leg)
  }

  /** Legs that are not before every leg of the wave. */
  ghost function Ahead(legs: set<Leg>, wave: set<Leg>): set<Leg> {
    set l | l in legs && exists w :: w in wave && w.order <= l.order
  }

  datatype Row = Row(leg: Leg, depth: nat)

  /** The rows produced from one working table on, without regard to how often each is produced. */
  ghost function Walk(legs: set<Leg>, wave: set<Leg>, depth: nat): set<Row>
    requires wave <= legs
    decreases |Ahead(legs, wave)|
  {
    if wave == {} then {}
    else
      WaveAdvances(legs, wave);
      (set leg | leg in wave :: Row(leg, depth)) + Walk(legs, Onward(legs, wave), depth + 1)
  }

  lemma {:induction false} LeastOrder(wave: set<Leg>) returns (first: Leg)
    requires wave != {}
    ensures first in wave && forall w :: w in wave ==> first.order <= w.order
    decreases wave
  {
    first :| first in wave;
    if wave != {first} {
      var rest := wave - {first};
      assert rest != {} by { assert wave == rest + {first}; }
      var other := LeastOrder(rest);
      first := if other.order < first.order then other else first;
    }
  }

  /** Every step leaves the earliest legs of the wave behind, so the walk ends. */
  lemma WaveAdvances(legs: set<Leg>, wave: set<Leg>)
    requires wave <= legs && wave != {}
    ensures |Ahead(legs, Onward(legs, wave))| < |Ahead(legs, wave)|
  {
    var first := LeastOrder(wave);
    assert first in Ahead(legs, wave) && first !in Ahead(legs, Onward(legs, wave));
    forall l | l in Ahead(legs, Onward(legs, wave)) ensures l in Ahead(legs, wave) {
      var n :| n in Onward(legs, wave) && n.order <= l.order;
      var w :| w in wave && Follows(n, w);
    }
    SubsetSize(Ahead(legs, Onward(legs, wave)), Ahead(legs, wave));
  }

  ghost predicate HasOrder(legs: set<Leg>, pairing: nat, order: int) {
    exists l :: l in legs && l.pairing == pairing && l.order == order
  }

  /** Every order from one leg to a later one of its pairing is there. */
  ghost predicate Unbroken(legs: set<Leg>, from: Leg, to: Leg) {
    && from.pairing == to.pairing && from.order <= to.order
    && forall o :: from.order <= o <= to.order ==> HasOrder(legs, from.pairing, o)
  }

  /** A leg `w` of the wave leads to `leg` over consecutive orders, in `hops` steps. */
  ghost predicate LeadsTo(legs: set<Leg>, w: Leg, leg: Leg, hops: int) {
    Unbroken(legs, w, leg) && hops == leg.order - w.order
  }

  lemma LeadsToItself(legs: set<Leg>, leg: Leg)
    requires leg in legs
    ensures LeadsTo(legs, leg, leg, 0)
  {
    assert HasOrder(legs, leg.pairing, leg.order);
  }

  lemma OneHopOn(legs: set<Leg>, wave: set<Leg>, w: Leg, leg: Leg, hops: int)
    requires Keyed(legs) && wave <= legs && leg in legs && w in wave && LeadsTo(legs, w, leg, hops)
    ensures hops == 0 ==> leg == w
    ensures hops > 0 ==> exists n :: n in Onward(legs, wave) && LeadsTo(legs, n, leg, hops - 1)
  {
    if hops > 0 {
      assert HasOrder(legs, w.pairing, w.order + 1);
      var n :| n in legs && n.pairing == w.pairing && n.order == w.order + 1;
      assert Follows(n, w) && n in Onward(legs, wave) && LeadsTo(legs, n, leg, hops - 1);
    }
  }

  lemma OneHopBack(legs: set<Leg>, wave: set<Leg>, n: Leg, leg: Leg, hops: int)
    requires wave <= legs && n in Onward(legs, wave) && LeadsTo(legs, n, leg, hops)
    ensures exists w :: w in wave && LeadsTo(legs, w, leg, hops + 1)
  {
    var w :| w in wave && Follows(n, w);
    forall o | w.order <= o <= leg.order ensures HasOrder(legs, w.pairing, o) {
      if o == w.order { assert w in legs; }
    }
    assert LeadsTo(legs, w, leg, hops + 1);
  }

  /** A row says: some leg of the wave leads to this one over consecutive orders, in as many hops. */
  lemma {:induction false} RowMeaning(legs: set<Leg>, wave: set<Leg>, depth: nat, leg: Leg, d: nat)
    requires Keyed(legs) && wave <= legs
    ensures Row(leg, d) in Walk(legs, wave, depth) <==>
              leg in legs && exists w :: w in wave && LeadsTo(legs, w, leg, d - depth)
    decreases |Ahead(legs, wave)|
  {
    if wave != {} {
      WaveAdvances(legs, wave);
      RowMeaning(legs, Onward(legs, wave), depth + 1, leg, d);
      RowIsHereOrOnward(legs, wave, depth, leg, d);
      LeadsHereOrOnward(legs, wave, leg, d - depth);
    }
  }

  lemma RowIsHereOrOnward(legs: set<Leg>, wave: set<Leg>, depth: nat, leg: Leg, d: nat)
    requires wave <= legs && wave != {}
    ensures Row(leg, d) in Walk(legs, wave, depth) <==>
              (leg in wave && d == depth) || Row(leg, d) in Walk(legs, Onward(legs, wave), depth + 1)
  {
  }

  lemma LeadsHereOrOnward(legs: set<Leg>, wave: set<Leg>, leg: Leg, hops: int)
    requires Keyed(legs) && wave <= legs
    ensures (leg in legs && exists w :: w in wave && LeadsTo(legs, w, leg, hops)) <==>
              ((leg in wave && hops == 0) ||
               (leg in legs && exists n :: n in Onward(legs, wave) && LeadsTo(legs, n, leg, hops - 1)))
  {
    if w :| leg in legs && w in wave && LeadsTo(legs, w, leg, hops) {
      OneHopOn(legs, wave, w, leg, hops);
    }
    if leg in wave && hops == 0 {
      LeadsToItself(legs, leg);
      assert LeadsTo(legs, leg, leg, hops);
    }
    if n :| n in Onward(legs, wave) && LeadsTo(legs, n, leg, hops - 1) {
      OneHopBack(legs, wave, n, leg, hops - 1);
    }
  }

  // ---------------------------------------------------------------- the query

  ghost function Affected(legs: set<Leg>, flights: set<nat>): set<Leg> {
    set l | l in legs && l.flight in flights
  }

  ghost function Touched(legs: set<Leg>, flights: set<nat>): set<Row> {
    Walk(legs, Affected(legs, flights), 0)
  }

  /** The distinct legs behind the rows of one pairing: COUNT(DISTINCT leg_id) counts these. */
  ghost function LegsReached(legs: set<Leg>, flights: set<nat>, pairing: nat): set<Leg> {
    set r | r in Touched(legs, flights) && r.leg.pairing == pairing :: r.leg
  }

  /** The query reports exactly the pairings with a leg on an affected flight, which are the ones
      load_crew_impact_inputs selects. */
  lemma ReachesAffectedPairings(legs: set<Leg>, flights: set<nat>, pairing: nat)
    requires Keyed(legs)
    ensures (exists r :: r in Touched(legs, flights) && r.leg.pairing == pairing) <==>
              exists l :: l in legs && l.pairing == pairing && l.flight in flights
  {
    var wave := Affected(legs, flights);
    if r :| r in Touched(legs, flights) && r.leg.pairing == pairing {
      RowMeaning(legs, wave, 0, r.leg, r.depth);
      var w :| w in wave && LeadsTo(legs, w, r.leg, r.depth - 0);
    }
    if l :| l in legs && l.pairing == pairing && l.flight in flights {
      RowMeaning(legs, wave, 0, l, 0);
      LeadsToItself(legs, l);
      assert l in wave && LeadsTo(legs, l, l, 0);
      assert Row(l, 0) in Touched(legs, flights);
    }
  }

  /** The pairing's legs are numbered 1 to n without a gap. */
  ghost predicate Contiguous(legs: set<Leg>, pairing: nat, n: nat) {
    && (forall l :: l in legs && l.pairing == pairing ==> 1 <= l.order <= n)
    && forall o :: 1 <= o <= n ==> HasOrder(legs, pairing, o)
  }

  ghost function LegsFrom(legs: set<Leg>, pairing: nat, m: int): set<Leg> {
    set l | l in legs && l.pairing == pairing && l.order >= m
  }

  lemma {:induction false} CountLegsFrom(legs: set<Leg>, pairing: nat, n: nat, m: int)
    requires Keyed(legs) && Contiguous(legs, pairing, n) && 1 <= m <= n + 1
    ensures |LegsFrom(legs, pairing, m)| == n - m + 1
    decreases n + 1 - m
  {
    if m == n + 1 {
      assert LegsFrom(legs, pairing, m) == {};
    } else {
      CountLegsFrom(legs, pairing, n, m + 1);
      assert HasOrder(legs, pairing, m);
      var l :| l in legs && l.pairing == pairing && l.order == m;
      assert LegsFrom(legs, pairing, m) == LegsFrom(legs, pairing, m + 1) + {l};
    }
  }

  /** `m` is the least order of the pairing's legs on an affected flight. */
  ghost predicate FirstTouched(legs: set<Leg>, flights: set<nat>, pairing: nat, m: int) {
    && (exists l :: l in legs && l.pairing == pairing && l.flight in flights && l.order == m)
    && forall l :: l in legs && l.pairing == pairing && l.flight in flights ==> m <= l.order
  }

  lemma RowsOfContiguousPairing(legs: set<Leg>, flights: set<nat>, pairing: nat, n: nat, m: int, leg: Leg, d: nat)
    requires Keyed(legs) && Contiguous(legs, pairing, n) && FirstTouched(legs, flights, pairing, m) && leg.pairing == pairing
    ensures Row(leg, d) in Touched(legs, flights) ==> leg in legs && leg.order >= m && d <= n - m
    ensures leg in legs && leg.order >= m && d == leg.order - m ==> Row(leg, d) in Touched(legs, flights)
  {
    var wave := Affected(legs, flights);
    RowMeaning(legs, wave, 0, leg, d);
    if leg in legs && leg.order >= m && d == leg.order - m {
      var first :| first in legs && first.pairing == pairing && first.flight in flights && first.order == m;
      assert first in wave && LeadsTo(legs, first, leg, d);
    }
  }

  /** For a pairing numbered 1 to n, first touched at m, the query counts n - m + 1 legs and reports a
      forward depth of n - m. */
  lemma ClosedForm(legs: set<Leg>, flights: set<nat>, pairing: nat, n: nat, m: int)
    requires Keyed(legs) && Contiguous(legs, pairing, n) && FirstTouched(legs, flights, pairing, m)
    ensures |LegsReached(legs, flights, pairing)| == n - m + 1
    ensures forall r :: r in Touched(legs, flights) && r.leg.pairing == pairing ==> r.depth <= n - m
    ensures exists r :: r in Touched(legs, flights) && r.leg.pairing == pairing && r.depth == n - m
  {
    forall l | l in LegsFrom(legs, pairing, m) ensures l in LegsReached(legs, flights, pairing) {
      RowsOfContiguousPairing(legs, flights, pairing, n, m, l, l.order - m);
      assert Row(l, l.order - m) in Touched(legs, flights);
    }
    forall r | r in Touched(legs, flights) && r.leg.pairing == pairing
      ensures r.leg in LegsFrom(legs, pairing, m) && r.depth <= n - m
    {
      RowsOfContiguousPairing(legs, flights, pairing, n, m, r.leg, r.depth);
    }
    assert LegsReached(legs, flights, pairing) == LegsFrom(legs, pairing, m);
    CountLegsFrom(legs, pairing, n, m);
    assert HasOrder(legs, pairing, n);
    var last :| last in legs && last.pairing == pairing && last.order == n;
    RowsOfContiguousPairing(legs, flights, pairing, n, m, last, n - m);
    assert Row(last, n - m) in Touched(legs, flights);
  }
}
