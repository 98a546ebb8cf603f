/** JSON-shaped facts and payloads, dotted-path lookup and the generic constraint operators. */
module Values {
  import opened Prelude

  /** Num stands for int and float alike, without rounding. */
  datatype Value =
    | Null
    | Bool(b: bool)
    | Num(n: real)
    | Str(s: string)
    | List(items: seq<Value>)
    | Dict(entries: map<string, Value>)

  /** A dotted path, already split: "a.b" is ["a", "b"], and "" is [""]. */
  type Path = p: seq<string> | |p| > 0 witness [""]

  /** The value below `current` reached by `segments`; None when a segment is absent. */
  function Resolve(current: Value, segments: seq<string>): Option<Value> {
    if segments == [] then Some(current)
    else if current.Dict? && segments[0] in current.entries then Resolve(current.entries[segments[0]], segments[1..])
    else None
  }

  /** _lookup */
  method Lookup(facts: Value, path: Path) returns (r: Option<Value>)
    ensures r == Resolve(facts, path)
  {
    var current := facts;
    for i := 0 to |path|
      invariant Resolve(current, path[i..]) == Resolve(facts, path)
    {
      assert path[i..][0] == path[i] && path[i..][1..] == path[i + 1..];
      if !current.Dict? || path[i] !in current.entries {
        return None;
      }
      current := current.entries[path[i]];
    }
    return Some(current);
  }

  /** Missing or explicitly null. False is an answer, null is not. */
  predicate Absent(value: Option<Value>) { value.None? || value.value.Null? }

  predicate IsNumber(v: Value) { v.Num? || v.Bool? }

  /** A bool counts as 0 or 1. */
  function AsNumber(v: Value): real
    requires IsNumber(v)
  {
    match v
    case Num(n) => n
    case Bool(b) => if b then 1.0 else 0.0
  }

  /** == */
  predicate Same(a: Value, b: Value)
    decreases a
  {
    if IsNumber(a) && IsNumber(b) then AsNumber(a) == AsNumber(b)
    else match (a, b)
      case (Null, Null) => true
      case (Str(s), Str(t)) => s == t
      case (List(x), List(y)) => |x| == |y| && forall i | 0 <= i < |x| :: Same(x[i], y[i])
      case (Dict(x), Dict(y)) => x.Keys == y.Keys && forall k | k in x.Keys :: Same(x[k], y[k])
      case _ => false
  }

  datatype Relation = Lt | Lte | Gt | Gte

  predicate Related(rel: Relation, x: real, y: real) {
    match rel
    case Lt => x < y
    case Lte => x <= y
    case Gt => x > y
    case Gte => x >= y
  }

  /** Position of the first difference of two texts, or the length of the shorter. */
  function TextDifference(s: string, t: string): (k: nat)
    ensures k <= |s| && k <= |t|
    ensures k < |s| && k < |t| ==> s[k] != t[k]
  {
    if s == "" || t == "" || s[0] != t[0] then 0 else 1 + TextDifference(s[1..], t[1..])
  }

  function ListDifference(x: seq<Value>, y: seq<Value>): (k: nat)
    ensures k <= |x| && k <= |y|
  {
    if x == [] || y == [] || !Same(x[0], y[0]) then 0 else 1 + ListDifference(x[1..], y[1..])
  }

  /** An ordering comparison; None where the operands cannot be ordered. Texts and lists compare at
      their first difference, and by length when there is none. */
  function Ordered(rel: Relation, a: Value, b: Value): Option<bool>
    decreases a
  {
    if IsNumber(a) && IsNumber(b) then Some(Related(rel, AsNumber(a), AsNumber(b)))
    else match (a, b)
      case (Str(s), Str(t)) =>
        var k := TextDifference(s, t);
        if k == |s| || k == |t| then Some(Related(rel, |s| as real, |t| as real))
        else Some(Related(rel, s[k] as int as real, t[k] as int as real))
      case (List(x), List(y)) =>
        var k := ListDifference(x, y);
        if k == |x| || k == |y| then Some(Related(rel, |x| as real, |y| as real))
        else Ordered(rel, x[k], y[k])
      case _ => None
  }

  predicate Hashable(v: Value) { !v.List? && !v.Dict? }

  predicate Contains(text: string, part: string) {
    exists i :: 0 <= i <= |text| && part <= text[i..]
  }

  /** left in right */
  function Membership(left: Value, right: Value): Option<bool> {
    match right
    case Str(t) => if left.Str? then Some(Contains(t, left.s)) else None
    case List(items) => Some(exists v :: v in items && Same(left, v))
    case Dict(entries) => if Hashable(left) then Some(left.Str? && left.s in entries) else None
    case _ => None
  }

  /** Whether set(v) can be formed. */
  predicate Collectable(v: Value) {
    v.Str? || v.Dict? || (v.List? && forall x :: x in v.items ==> Hashable(x))
  }

  /** x in set(v) */
  predicate HasElement(v: Value, x: Value)
    requires Collectable(v)
  {
    match v
    case List(items) => exists item :: item in items && Same(item, x)
    case Str(s) => x.Str? && exists c :: c in s && x.s == [c]
    case Dict(entries) => x.Str? && x.s in entries
  }

  /** Neither collection holds anything the other does; a left operand that is no list counts as one item. */
  function Disjoint(left: Value, right: Value): Option<bool> {
    var items := if left.List? then left.items else [left];
    if Collectable(List(items)) && Collectable(right)
    then Some(!exists x :: x in items && HasElement(right, x))
    else None
  }

  /** sum(left), or left itself when it is not a list. */
  function Total(left: Value): Option<Value> {
    if !left.List? then Some(left)
    else if forall x :: x in left.items ==> IsNumber(x) then Some(Num(Sum(left.items)))
    else None
  }

  function Sum(items: seq<Value>): real
    requires forall x :: x in items ==> IsNumber(x)
  {
    if items == [] then 0.0 else Sum(items[..|items| - 1]) + AsNumber(items[|items| - 1])
  }

  function Not(outcome: Option<bool>): Option<bool> {
    match outcome
    case None => None
    case Some(b) => Some(!b)
  }

  datatype Operator =
    | Eq | Ne | LessThan | AtMost | MoreThan | AtLeast
    | In | NotIn | DisjointFrom
    | Required | Forbidden
    | MaxTotal
    | Unsupported(text: string)

  /** _compare: None when the values are not comparable through the operator. */
  function Compare(op: Operator, left: Value, right: Value): Option<bool> {
    match op
    case Eq => Some(Same(left, right))
    case Ne => Some(!Same(left, right))
    case LessThan => Ordered(Lt, left, right)
    case AtMost => Ordered(Lte, left, right)
    case MoreThan => Ordered(Gt, left, right)
    case AtLeast => Ordered(Gte, left, right)
    case In => Membership(left, right)
    case NotIn => Not(Membership(left, right))
    case DisjointFrom => Disjoint(left, right)
    case MaxTotal =>
      (match Total(left)
       case None => None
       case Some(total) => Ordered(Lte, total, right))
    case _ => None
  }

  lemma {:induction false} OrderedNegates(a: Value, b: Value)
    ensures Ordered(Gte, a, b) == Not(Ordered(Lt, a, b))
    ensures Ordered(Gt, a, b) == Not(Ordered(Lte, a, b))
    decreases a
  {
    if a.List? && b.List? {
      var k := ListDifference(a.items, b.items);
      if k < |a.items| && k < |b.items| {
        OrderedNegates(a.items[k], b.items[k]);
      }
    }
  }

  /** Each operator and its opposite are never both satisfied, and neither is satisfied when the
      values cannot be compared. */
  lemma OppositeOperators(left: Value, right: Value)
    ensures Compare(Ne, left, right) == Not(Compare(Eq, left, right))
    ensures Compare(AtLeast, left, right) == Not(Compare(LessThan, left, right))
    ensures Compare(MoreThan, left, right) == Not(Compare(AtMost, left, right))
    ensures Compare(NotIn, left, right) == Not(Compare(In, left, right))
  {
    OrderedNegates(left, right);
  }

  lemma {:induction false} SameIsReflexive(a: Value)
    ensures Same(a, a)
  {
    match a
    case List(items) => forall i | 0 <= i < |items| ensures Same(items[i], items[i]) { SameIsReflexive(items[i]); }
    case Dict(entries) => forall k | k in entries ensures Same(entries[k], entries[k]) { SameIsReflexive(entries[k]); }
    case _ =>
  }

  /** Every item of a list is found in it, and no list of that item is disjoint from it. */
  lemma ItemsAreMembers(items: seq<Value>, i: nat)
    requires i < |items|
    ensures Compare(Eq, items[i], items[i]) == Some(true)
    ensures Compare(In, items[i], List(items)) == Some(true) && Compare(NotIn, items[i], List(items)) == Some(false)
    ensures Compare(DisjointFrom, List([items[i]]), List(items)) != Some(true)
  {
    SameIsReflexive(items[i]);
    assert items[i] in items && items[i] in List([items[i]]).items;
    if Collectable(List(items)) { assert HasElement(List(items), items[i]); }
  }

  lemma {:induction false} SameIsSymmetric(a: Value, b: Value)
    requires Same(a, b)
    ensures Same(b, a)
    decreases a
  {
    match (a, b)
    case (List(x), List(y)) => forall i | 0 <= i < |x| ensures Same(y[i], x[i]) { SameIsSymmetric(x[i], y[i]); }
    case (Dict(x), Dict(y)) => forall k | k in x ensures Same(y[k], x[k]) { SameIsSymmetric(x[k], y[k]); }
    case _ =>
  }

  /** DisjointFrom fails exactly when one of the left items is a member of the right operand. */
  lemma DisjointExcludesMembership(left: Value, right: Value)
    requires left.List? && right.List? && Disjoint(left, right).Some?
    ensures Disjoint(left, right) == Some(true) <==>
              forall x :: x in left.items ==> Membership(x, right) == Some(false)
  {
    forall x ensures HasElement(right, x) <==> Membership(x, right) == Some(true) {
      forall item | item in right.items ensures Same(item, x) <==> Same(x, item) {
        if Same(item, x) { SameIsSymmetric(item, x); }
        if Same(x, item) { SameIsSymmetric(x, item); }
      }
    }
  }

  // ---------------------------------------------------------------- what the operators mean

  /** On numbers the order operators are the order of the numbers. */
  lemma NumberOrder(x: real, y: real)
    ensures Compare(LessThan, Num(x), Num(y)) == Some(x < y)
    ensures Compare(AtMost, Num(x), Num(y)) == Some(x <= y)
    ensures Compare(MoreThan, Num(x), Num(y)) == Some(x > y)
    ensures Compare(AtLeast, Num(x), Num(y)) == Some(x >= y)
    ensures Compare(Eq, Num(x), Num(y)) == Some(x == y)
  {
  }

  predicate OrderOperator(op: Operator) { op.LessThan? || op.AtMost? || op.MoreThan? || op.AtLeast? }

  /** A bool compares as the number 0 or 1, on either side. */
  lemma BoolsAreNumbers(op: Operator, b: bool, v: Value)
    requires OrderOperator(op) || op.Eq?
    ensures Compare(op, Bool(b), v) == Compare(op, Num(if b then 1.0 else 0.0), v)
    ensures Compare(op, v, Bool(b)) == Compare(op, v, Num(if b then 1.0 else 0.0))
  {
    assert AsNumber(Bool(b)) == (if b then 1.0 else 0.0);
    match op
    case Eq =>
      assert Same(Bool(b), v) == Same(Num(if b then 1.0 else 0.0), v);
      assert Same(v, Bool(b)) == Same(v, Num(if b then 1.0 else 0.0));
    case _ =>
  }

  /** Nothing else is ordered: a text and a number, null, or an object. */
  lemma OnlyLikeIsOrdered(op: Operator, left: Value, right: Value)
    requires OrderOperator(op)
    requires !(left.Str? && right.Str?) && !(left.List? && right.List?)
    requires !((left.Num? || left.Bool?) && (right.Num? || right.Bool?))
    ensures Compare(op, left, right) == None
  {
  }

  /** A proper prefix comes first; otherwise the first character in which the texts differ decides. */
  ghost predicate TextBefore(s: string, t: string) {
    s < t || exists k :: 0 <= k < |s| && k < |t| && s[..k] == t[..k] && s[k] < t[k]
  }

  lemma {:induction false} DifferenceIsFirst(s: string, t: string)
    ensures var k := TextDifference(s, t); s[..k] == t[..k]
  {
    if s != "" && t != "" && s[0] == t[0] {
      DifferenceIsFirst(s[1..], t[1..]);
      var k := TextDifference(s[1..], t[1..]);
      assert s[..k + 1] == [s[0]] + s[1..][..k] && t[..k + 1] == [t[0]] + t[1..][..k];
    }
  }

  lemma {:induction false} FirstDifferenceIsUnique(s: string, t: string, k: nat)
    requires k < |s| && k < |t| && s[..k] == t[..k] && s[k] != t[k]
    ensures TextDifference(s, t) == k
  {
    if k > 0 {
      assert s[0] == s[..k][0] == t[0];
      assert s[1..][..k - 1] == s[..k][1..] && t[1..][..k - 1] == t[..k][1..];
      FirstDifferenceIsUnique(s[1..], t[1..], k - 1);
    }
  }

  lemma {:induction false} PrefixHasNoDifference(s: string, t: string)
    ensures s <= t ==> TextDifference(s, t) == |s|
  {
    if s <= t && s != "" {
      assert s[1..] <= t[1..] by { assert t[..|s|][1..] == t[1..][..|s| - 1]; }
      PrefixHasNoDifference(s[1..], t[1..]);
    }
  }

  lemma BeforeByDifference(s: string, t: string)
    ensures var d := TextDifference(s, t);
            TextBefore(s, t) <==> if d == |s| || d == |t| then |s| < |t| else s[d] < t[d]
  {
    var d := TextDifference(s, t);
    DifferenceIsFirst(s, t);
    if k :| 0 <= k < |s| && k < |t| && s[..k] == t[..k] && s[k] < t[k] {
      FirstDifferenceIsUnique(s, t, k);
    }
    PrefixHasNoDifference(s, t);
    if d == |s| && |s| < |t| { assert s == t[..d]; }
  }

  /** On texts they are that order, and no text is equal to another one. */
  lemma TextOrder(s: string, t: string)
    ensures Compare(LessThan, Str(s), Str(t)) == Some(TextBefore(s, t))
    ensures Compare(AtMost, Str(s), Str(t)) == Some(TextBefore(s, t) || s == t)
    ensures Compare(MoreThan, Str(s), Str(t)) == Some(TextBefore(t, s))
    ensures Compare(AtLeast, Str(s), Str(t)) == Some(TextBefore(t, s) || s == t)
    ensures Compare(Eq, Str(s), Str(t)) == Some(s == t)
  {
    BeforeByDifference(s, t);
    BeforeByDifference(t, s);
    DifferenceIsFirst(s, t);
    DifferenceIsFirst(t, s);
    DifferenceEitherWay(s, t);
    var d := TextDifference(s, t);
    if d == |s| && |s| == |t| { assert s == s[..d] && t == t[..d]; }
  }

  lemma {:induction false} DifferenceEitherWay(s: string, t: string)
    ensures TextDifference(s, t) == TextDifference(t, s)
  {
    if s != "" && t != "" && s[0] == t[0] { DifferenceEitherWay(s[1..], t[1..]); }
  }

  /** The lists agree, item by item, before position k. */
  ghost predicate AgreeBefore(x: seq<Value>, y: seq<Value>, k: nat)
    requires k <= |x| && k <= |y|
  {
    forall i :: 0 <= i < k ==> Compare(Eq, x[i], y[i]) == Some(true)
  }

  lemma {:induction false} ListDifferenceIsFirst(x: seq<Value>, y: seq<Value>, k: nat)
    requires k <= |x| && k <= |y| && AgreeBefore(x, y, k)
    requires k == |x| || k == |y| || Compare(Eq, x[k], y[k]) == Some(false)
    ensures ListDifference(x, y) == k
  {
    if k > 0 {
      assert Compare(Eq, x[0], y[0]) == Some(true);
      forall i | 0 <= i < k - 1 ensures Compare(Eq, x[1..][i], y[1..][i]) == Some(true) {
        assert x[1..][i] == x[i + 1] && y[1..][i] == y[i + 1];
      }
      ListDifferenceIsFirst(x[1..], y[1..], k - 1);
    }
  }

  /** On lists the first items that are not equal decide; if there are none, the shorter list comes first. */
  lemma ListOrder(op: Operator, x: seq<Value>, y: seq<Value>, k: nat)
    requires OrderOperator(op) && k <= |x| && k <= |y| && AgreeBefore(x, y, k)
    ensures k < |x| && k < |y| && Compare(Eq, x[k], y[k]) == Some(false) ==>
              Compare(op, List(x), List(y)) == Compare(op, x[k], y[k])
    ensures k == |x| || k == |y| ==>
              Compare(op, List(x), List(y)) == Compare(op, Num(|x| as real), Num(|y| as real))
  {
    if k == |x| || k == |y| || Compare(Eq, x[k], y[k]) == Some(false) {
      ListDifferenceIsFirst(x, y, k);
    }
  }

  /** Two lists are equal when they are equally long and equal item by item, two objects when they have
      the same keys and equal values; a null equals only null. */
  lemma EqualityOfParts(x: seq<Value>, y: seq<Value>, m: map<string, Value>, n: map<string, Value>, v: Value)
    ensures Compare(Eq, List(x), List(y)) ==
              Some(|x| == |y| && forall i :: 0 <= i < |x| ==> Compare(Eq, x[i], y[i]) == Some(true))
    ensures Compare(Eq, Dict(m), Dict(n)) ==
              Some(m.Keys == n.Keys && forall k :: k in m ==> Compare(Eq, m[k], n[k]) == Some(true))
    ensures Compare(Eq, Null, v) == Some(v.Null?)
  {
  }

  /** Values of different kinds are not equal. */
  lemma DifferentKindsDiffer(left: Value, right: Value)
    requires !(left.Num? || left.Bool?) || !(right.Num? || right.Bool?)
    requires !(left.Null? && right.Null?) && !(left.Str? && right.Str?)
    requires !(left.List? && right.List?) && !(left.Dict? && right.Dict?)
    ensures Compare(Eq, left, right) == Some(false)
  {
  }

  /** A value is in a list that has an item equal to it, in a text as a part of it, in an object as a key. */
  lemma MembershipMeaning(v: Value, items: seq<Value>, text: string, entries: map<string, Value>)
    ensures Compare(In, v, List(items)) ==
              Some(exists i :: 0 <= i < |items| && Compare(Eq, v, items[i]) == Some(true))
    ensures v.Str? ==> (Compare(In, v, Str(text)) == Some(true) <==> exists pre, post :: text == pre + v.s + post)
    ensures v.Str? ==> Compare(In, v, Str(text)).Some?
    ensures !v.Str? ==> Compare(In, v, Str(text)) == None
    ensures v.Str? ==> Compare(In, v, Dict(entries)) == Some(v.s in entries)
  {
    if v.Str? { ContainsMeaning(text, v.s); }
    if exists i :: 0 <= i < |items| && Compare(Eq, v, items[i]) == Some(true) {
      var i :| 0 <= i < |items| && Compare(Eq, v, items[i]) == Some(true);
      assert items[i] in items && Same(v, items[i]);
    }
    if item :| item in items && Same(v, item) {
      var i :| 0 <= i < |items| && items[i] == item;
      assert Compare(Eq, v, items[i]) == Some(true);
    }
  }

  lemma ContainsMeaning(text: string, part: string)
    ensures Contains(text, part) <==> exists pre, post :: text == pre + part + post
  {
    if i :| 0 <= i <= |text| && part <= text[i..] {
      assert text == text[..i] + part + text[i + |part|..];
    }
    if pre, post :| text == pre + part + post {
      assert text[|pre|..] == part + post;
    }
  }

  /** A total is held against the limit with every item counted: none makes 0, and each number leaves
      that much less of the limit. An item that is no number makes the total incomparable. */
  lemma TotalAgainstLimit(items: seq<Value>, v: real, limit: real)
    ensures Compare(MaxTotal, List([]), Num(limit)) == Some(0.0 <= limit)
    ensures Compare(MaxTotal, List(items + [Num(v)]), Num(limit)) == Compare(MaxTotal, List(items), Num(limit - v))
    ensures (exists x :: x in items && !x.Num? && !x.Bool?) ==> Compare(MaxTotal, List(items), Num(limit)) == None
    ensures Compare(MaxTotal, Num(v), Num(limit)) == Some(v <= limit)
  {
    var more := items + [Num(v)];
    assert more[..|items|] == items && more[|items|] == Num(v);
    if forall x :: x in items ==> IsNumber(x) {
      assert forall x :: x in more ==> IsNumber(x);
      assert Sum(more) == Sum(items) + v;
    } else {
      var x :| x in items && !IsNumber(x);
      assert x in more;
    }
  }

  /** A path leads where its parts lead, one after the other. */
  lemma {:induction false} PathsCompose(v: Value, p: seq<string>, q: seq<string>)
    ensures Resolve(v, p + q) == (match Resolve(v, p) case None => None case Some(w) => Resolve(w, q))
  {
    if p == [] {
      assert p + q == q;
    } else {
      assert (p + q)[0] == p[0] && (p + q)[1..] == p[1..] + q;
      if v.Dict? && p[0] in v.entries { PathsCompose(v.entries[p[0]], p[1..], q); }
    }
  }

  /** One segment is a key of an object. */
  lemma OneSegment(v: Value, key: string)
    ensures Resolve(v, []) == Some(v)
    ensures Resolve(v, [key]) == if v.Dict? && key in v.entries then Some(v.entries[key]) else None
  {
    if v.Dict? && key in v.entries {
      assert [key][1..] == [];
      assert Resolve(v.entries[key], []) == Some(v.entries[key]);
    }
  }
}
