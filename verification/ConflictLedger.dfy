/** The ledger of outstanding actions, grown only through the conflict check. */
module ConflictLedger {
  import opened Prelude
  import opened Aggregation
  import opened ActionContract
  import opened ActionChecks

  datatype Step =
    | Append(action: ActionName, targets: seq<string>, state: TaskState)
    | Move(index: nat, state: TaskState)
    | Stock(ref: string, available: Option<int>)

  predicate Live(entry: LedgerEntry) { entry.Work? && !NonBlocking(entry.state) }

  /** Work is appended only when no_conflicts passed against the whole ledger; the state of an entry
      moves freely except that one that stopped blocking never blocks again. */
  predicate Enabled(ledger: seq<LedgerEntry>, step: Step) {
    match step
    case Append(action, targets, _) => ConflictsVerdict(action, targets, ledger).state == Passed
    case Move(i, state) => i < |ledger| && ledger[i].Work? && (Live(ledger[i]) || NonBlocking(state))
    case Stock(_, _) => true
  }

  function Apply(ledger: seq<LedgerEntry>, step: Step): seq<LedgerEntry>
    requires Enabled(ledger, step)
  {
    match step
    case Append(action, targets, state) => ledger + [Work(Some(action), targets, state)]
    case Move(i, state) => ledger[i := ledger[i].(state := state)]
    case Stock(ref, available) => ledger + [Capacity(ref, available)]
  }

  /** Two live entries of one action type that share a target, or of which one is unscoped. */
  ghost predicate Collide(a: LedgerEntry, b: LedgerEntry) {
    && Live(a) && Live(b) && a.action == b.action && a.action.Some?
    && (a.targets == [] || b.targets == [] || exists ref :: ref in a.targets && ref in b.targets)
  }

  ghost predicate NoDoubleCommitment(ledger: seq<LedgerEntry>) {
    forall i, j :: 0 <= i < j < |ledger| ==> !Collide(ledger[i], ledger[j])
  }

  /** The check passes a live action exactly when appending it keeps the ledger free of double
      commitments, capacity permitting. */
  lemma CheckIsExact(ledger: seq<LedgerEntry>, action: ActionName, targets: seq<string>, state: TaskState)
    requires NoDoubleCommitment(ledger) && !NonBlocking(state)
    requires forall e :: e in ledger ==> !Exhausts(e, targets)
    ensures ConflictsVerdict(action, targets, ledger).state == Passed <==>
              NoDoubleCommitment(ledger + [Work(Some(action), targets, state)])
  {
    var entry := Work(Some(action), targets, state);
    var longer := ledger + [entry];
    forall i | 0 <= i < |ledger| ensures Collide(longer[i], longer[|ledger|]) <==> Duplicates(ledger[i], action, targets) {
    }
    if e :| e in ledger && Duplicates(e, action, targets) {
      var i :| 0 <= i < |ledger| && ledger[i] == e;
      assert Collide(longer[i], longer[|ledger|]);
    }
  }

  lemma StepKeeps(ledger: seq<LedgerEntry>, step: Step)
    requires NoDoubleCommitment(ledger) && Enabled(ledger, step)
    ensures NoDoubleCommitment(Apply(ledger, step))
  {
    var next := Apply(ledger, step);
    forall i, j | 0 <= i < j < |next| ensures !Collide(next[i], next[j]) {
      if step.Append? && j == |ledger| {
        assert ledger[i] in ledger;
        assert !Duplicates(ledger[i], step.action, step.targets);
      } else if j < |ledger| {
        assert !Collide(ledger[i], ledger[j]);
      }
    }
  }

  /** The ledger a run of steps leads to; None if some step was not enabled when its turn came. */
  function Run(start: seq<LedgerEntry>, steps: seq<Step>): Option<seq<LedgerEntry>> {
    if steps == [] then Some(start)
    else
      match Run(start, steps[..|steps| - 1])
      case None => None
      case Some(before) =>
        if Enabled(before, steps[|steps| - 1]) then Some(Apply(before, steps[|steps| - 1])) else None
  }

  lemma RunOneMore(start: seq<LedgerEntry>, steps: seq<Step>, step: Step)
    requires Run(start, steps).Some? && Enabled(Run(start, steps).value, step)
    ensures Run(start, steps + [step]) == Some(Apply(Run(start, steps).value, step))
  {
    assert (steps + [step])[..|steps|] == steps;
  }

  /** No run from a ledger without double commitments, the empty one for instance, reaches one. */
  lemma {:induction false} NoRunCommitsTwice(start: seq<LedgerEntry>, steps: seq<Step>)
    requires NoDoubleCommitment(start) && Run(start, steps).Some?
    ensures NoDoubleCommitment(Run(start, steps).value)
  {
    if steps != [] {
      NoRunCommitsTwice(start, steps[..|steps| - 1]);
      StepKeeps(Run(start, steps[..|steps| - 1]).value, steps[|steps| - 1]);
    }
  }

  /** Exactly when an entry that stopped blocking may be revived: when the conflict check of its action
      and targets finds no duplicate among the other entries. */
  lemma RevivalIsSafeExactly(ledger: seq<LedgerEntry>, i: nat, action: ActionName, state: TaskState)
    requires NoDoubleCommitment(ledger) && i < |ledger| && !NonBlocking(state)
    requires ledger[i].Work? && ledger[i].action == Some(action) && !Live(ledger[i])
    ensures NoDoubleCommitment(ledger[i := ledger[i].(state := state)]) <==>
              ConflictsVerdict(action, ledger[i].targets, ledger[..i] + ledger[i + 1..]).code != DuplicateAction
  {
    var revived, others := ledger[i := ledger[i].(state := state)], ledger[..i] + ledger[i + 1..];
    forall j | 0 <= j < |ledger| && j != i
      ensures ledger[j] in others && (Collide(revived[j], revived[i]) <==> Duplicates(ledger[j], action, ledger[i].targets))
      ensures Collide(revived[i], revived[j]) <==> Collide(revived[j], revived[i])
    {
      assert ledger[j] == others[if j < i then j else j - 1];
    }
    if e :| e in others && Duplicates(e, action, ledger[i].targets) {
      var k :| 0 <= k < |others| && others[k] == e;
      var j := if k < i then k else k + 1;
      assert ledger[j] == e && Collide(revived[j], revived[i]);
    }
    forall j, k | 0 <= j < k < |ledger| && j != i && k != i ensures !Collide(revived[j], revived[k]) {
      assert !Collide(ledger[j], ledger[k]);
    }
  }

  /** The proviso on Move is needed: reviving a failed entry can double a commitment made meanwhile. */
  lemma RevivalDoublesACommitment(action: ActionName, targets: seq<string>)
    ensures Run([], [Append(action, targets, PendingTask), Move(0, FailedTask), Append(action, targets, ExecutingTask)])
              == Some([Work(Some(action), targets, FailedTask), Work(Some(action), targets, ExecutingTask)])
    ensures !NoDoubleCommitment([Work(Some(action), targets, ExecutingTask), Work(Some(action), targets, ExecutingTask)])
  {
    var s1, s2, s3 := Append(action, targets, PendingTask), Move(0, FailedTask), Append(action, targets, ExecutingTask);
    var failed, executing := Work(Some(action), targets, FailedTask), Work(Some(action), targets, ExecutingTask);
    var pending := Work(Some(action), targets, PendingTask);
    RunOneMore([], [], s1);
    assert [] + [s1] == [s1] && Apply([], s1) == [pending];
    RunOneMore([], [s1], s2);
    assert [s1] + [s2] == [s1, s2] && Apply([pending], s2) == [failed];
    RunOneMore([], [s1, s2], s3);
    assert [s1, s2] + [s3] == [s1, s2, s3] && Apply([failed], s3) == [failed, executing];
    if targets != [] { assert targets[0] in targets; }
    assert Collide([executing, executing][0], [executing, executing][1]);
  }
}
