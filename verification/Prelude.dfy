/** Vocabulary shared by every layer: optional values and the closed enumerations. */
module Prelude {

  datatype Option<+T> = None | Some(value: T)

  datatype CheckState = Passed | Warn | Failed

  datatype RiskTier = Low | Medium | High

  datatype Decision = Execute | ExecuteFlagged | NeedsHuman

  /** Why a human is needed. Only a pure risk block is approvable. */
  datatype BlockingKind = Evidence | Conflict | Risk

  /** The closed set of executable actions. */
  datatype ActionType =
    | NotifyPassengers
    | CheckConnections
    | FindHotelOptions
    | ReserveHotelBlock
    | ArrangeGroundTransport
    | RebookPassengers
    | ReassignGate
    | AssessCrewImpact
    | EvaluateEntitlements
    | PrepareNotifications
    | RecordOutcome

  /** Text read as an action type: the value of a member, or any other text. */
  datatype ActionName = Known(action: ActionType) | Unknown(text: string)

  function Severity(state: CheckState): nat {
    match state
    case Passed => 0
    case Warn => 1
    case Failed => 2
  }

  /** How much a decision lets through: nothing, something under a flag, everything asked. */
  function Permissiveness(decision: Decision): nat {
    match decision
    case NeedsHuman => 0
    case ExecuteFlagged => 1
    case Execute => 2
  }

  ghost predicate NoRepeats<T>(items: seq<T>) {
    forall i, j :: 0 <= i < j < |items| ==> items[i] != items[j]
  }

  lemma SameMembers<T>(a: seq<T>, b: seq<T>)
    requires multiset(a) == multiset(b)
    ensures forall x :: x in a <==> x in b
  {
    forall x ensures x in a <==> x in b {
      assert x in a <==> x in multiset(a);
      assert x in b <==> x in multiset(b);
    }
  }

  /** The items of `items`, each at the place of its first occurrence. */
  function FirstOccurrences<T(==)>(items: seq<T>): seq<T> {
    if items == [] then []
    else
      var front := items[..|items| - 1];
      var last := items[|items| - 1];
      if last in front then FirstOccurrences(front) else FirstOccurrences(front) + [last]
  }

  lemma {:induction false} FirstOccurrencesIsASet<T>(items: seq<T>)
    ensures NoRepeats(FirstOccurrences(items))
    ensures forall x :: x in FirstOccurrences(items) <==> x in items
  {
    if items != [] {
      var front := items[..|items| - 1];
      FirstOccurrencesIsASet(front);
      assert items == front + [items[|items| - 1]];
    }
  }

  /** checks.dedupe: one pass with a `seen` set. */
  method Dedupe<T(==)>(items: seq<T>) returns (ordered: seq<T>)
    ensures ordered == FirstOccurrences(items)
    ensures NoRepeats(ordered)
    ensures forall x :: x in ordered <==> x in items
  {
    var seen: set<T> := {};
    ordered := [];
    for i := 0 to |items|
      invariant seen == set x | x in items[..i]
      invariant ordered == FirstOccurrences(items[..i])
    {
      assert items[..i + 1][..i] == items[..i];
      if items[i] !in seen {
        seen := seen + {items[i]};
        ordered := ordered + [items[i]];
      }
    }
    assert items[..|items|] == items;
    FirstOccurrencesIsASet(items);
  }

  /** The items of `order` that are in `names`, in that order. */
  function Pick<N(==, !new)>(order: seq<N>, names: set<N>): (r: seq<N>)
    ensures forall name :: name in r <==> name in order && name in names
  {
    if order == [] then []
    else if order[0] in names then [order[0]] + Pick(order[1..], names)
    else Pick(order[1..], names)
  }

  /** A character that strip() removes. */
  predicate IsSpace(c: char) {
    || '\t' <= c <= '\r' || '\U{1C}' <= c <= ' ' || c == '\U{85}' || c == '\U{A0}' || c == '\U{1680}'
    || '\U{2000}' <= c <= '\U{200A}' || c == '\U{2028}' || c == '\U{2029}' || c == '\U{202F}' || c == '\U{205F}'
    || c == '\U{3000}'
  }

  /** Nothing is left of the text after strip(). */
  predicate Blank(text: string) { forall c :: c in text ==> IsSpace(c) }

  lemma {:induction false} SubsetSize<T>(a: set<T>, b: set<T>)
    requires a <= b
    ensures |a| <= |b| && (|a| == |b| ==> a == b)
  {
    if a != {} {
      var x :| x in a;
      SubsetSize(a - {x}, b - {x});
    }
  }

  /** The members of a set, in some order. */
  lemma {:induction false} Listing<T>(s: set<T>) returns (items: seq<T>)
    ensures NoRepeats(items) && forall x :: x in items <==> x in s
  {
    items := [];
    if s != {} {
      var x :| x in s;
      var rest := Listing(s - {x});
      items := [x] + rest;
    }
  }
}
