/** The canonical identity of a plan and the approvals bound to it. */
module PlanIdentity {
  import opened Prelude
  import opened PlanContract
  import opened Approval
  import ActionGate

  // ---------------------------------------------------------------- sorted texts

  /** Code-point order, as sorted() compares texts. */
  predicate Leq(a: string, b: string) {
    a == "" || (b != "" && (a[0] < b[0] || (a[0] == b[0] && Leq(a[1..], b[1..]))))
  }

  lemma {:induction false} LeqIsATotalOrder(a: string, b: string, c: string)
    ensures Leq(a, b) || Leq(b, a)
    ensures Leq(a, b) && Leq(b, a) ==> a == b
    ensures Leq(a, b) && Leq(b, c) ==> Leq(a, c)
    decreases |a| + |b| + |c|
  {
    if a != "" && b != "" && c != "" {
      LeqIsATotalOrder(a[1..], b[1..], c[1..]);
      assert a == [a[0]] + a[1..] && b == [b[0]] + b[1..];
    } else if a != "" && b != "" {
      LeqIsATotalOrder(a[1..], b[1..], c);
      assert a == [a[0]] + a[1..] && b == [b[0]] + b[1..];
    }
  }

  ghost predicate Ascending(items: seq<string>) {
    forall i, j :: 0 <= i < j < |items| ==> Leq(items[i], items[j])
  }

  function Insert(x: string, items: seq<string>): seq<string> {
    if items == [] then [x]
    else if Leq(x, items[0]) then [x] + items
    else [items[0]] + Insert(x, items[1..])
  }

  /** sorted(items) */
  function Sorted(items: seq<string>): seq<string> {
    if items == [] then [] else Insert(items[0], Sorted(items[1..]))
  }

  lemma {:induction false} InsertKeepsOrder(x: string, items: seq<string>)
    requires Ascending(items)
    ensures Ascending(Insert(x, items))
    ensures multiset(Insert(x, items)) == multiset(items) + multiset{x}
  {
    if items != [] {
      var rest := items[1..];
      assert items == [items[0]] + rest;
      LeqIsATotalOrder(x, items[0], items[0]);
      if Leq(x, items[0]) {
        forall i | 0 <= i < |items| ensures Leq(x, items[i]) { LeqIsATotalOrder(x, items[0], items[i]); }
      } else {
        InsertKeepsOrder(x, rest);
        var inserted := Insert(x, rest);
        forall i | 0 <= i < |inserted| ensures Leq(items[0], inserted[i]) {
          assert inserted[i] in multiset(inserted);
          assert inserted[i] == x || inserted[i] in rest;
        }
      }
    }
  }

  lemma {:induction false} SortedIsSorted(items: seq<string>)
    ensures Ascending(Sorted(items)) && multiset(Sorted(items)) == multiset(items)
  {
    if items != [] {
      SortedIsSorted(items[1..]);
      InsertKeepsOrder(items[0], Sorted(items[1..]));
      assert items == [items[0]] + items[1..];
    }
  }

  lemma FirstIsLeast(items: seq<string>, x: string)
    requires Ascending(items) && x in multiset(items)
    ensures Leq(items[0], x)
  {
    var i :| 0 <= i < |items| && items[i] == x;
    LeqIsATotalOrder(x, x, x);
  }

  lemma TailsAgree(a: seq<string>, b: seq<string>)
    requires a != [] && b != [] && a[0] == b[0] && multiset(a) == multiset(b)
    ensures multiset(a[1..]) == multiset(b[1..])
  {
    assert a == [a[0]] + a[1..] && b == [b[0]] + b[1..];
    assert multiset(a[1..]) == multiset(a) - multiset{a[0]};
    assert multiset(b[1..]) == multiset(b) - multiset{b[0]};
  }

  lemma {:induction false} AscendingIsUnique(a: seq<string>, b: seq<string>)
    requires Ascending(a) && Ascending(b) && multiset(a) == multiset(b)
    ensures a == b
  {
    assert |a| == |multiset(a)| == |b|;
    if a != [] {
      assert a[0] in multiset(a) && b[0] in multiset(b);
      FirstIsLeast(a, b[0]);
      FirstIsLeast(b, a[0]);
      LeqIsATotalOrder(a[0], b[0], b[0]);
      TailsAgree(a, b);
      AscendingIsUnique(a[1..], b[1..]);
      assert a == [a[0]] + a[1..] && b == [b[0]] + b[1..];
    }
  }

  /** Two lists sort alike exactly when they hold the same texts equally often. */
  lemma SortedAlike(a: seq<string>, b: seq<string>)
    ensures Sorted(a) == Sorted(b) <==> multiset(a) == multiset(b)
  {
    SortedIsSorted(a);
    SortedIsSorted(b);
    if multiset(a) == multiset(b) {
      AscendingIsUnique(Sorted(a), Sorted(b));
    }
  }

  // ---------------------------------------------------------------- the identity

  datatype CanonicalTask = CanonicalTask(taskId: string, action: ActionName, targetRefs: seq<string>, dependsOn: seq<string>)

  /** The payload that PlanUnderReview.hash serialises. */
  datatype Canonical = Canonical(group: string, tasks: seq<CanonicalTask>)

  function CanonicalOf(task: TaskOutcome): CanonicalTask {
    CanonicalTask(task.taskId, task.actionType, Sorted(task.targetRefs), Sorted(task.dependsOn))
  }

  function IdentityOf(plan: Plan): Canonical {
    Canonical(plan.group, seq(|plan.tasks|, i requires 0 <= i < |plan.tasks| => CanonicalOf(plan.tasks[i])))
  }

  ghost predicate SameShape(p: Plan, q: Plan) {
    && p.group == q.group
    && |p.tasks| == |q.tasks|
    && forall i :: 0 <= i < |p.tasks| ==> SameTask(p.tasks[i], q.tasks[i])
  }

  ghost predicate SameTask(a: TaskOutcome, b: TaskOutcome) {
    && a.taskId == b.taskId && a.actionType == b.actionType
    && multiset(a.targetRefs) == multiset(b.targetRefs)
    && multiset(a.dependsOn) == multiset(b.dependsOn)
  }

  /** Equal identity means the same group and, task by task in order, the same id and action with the
      same targets and dependencies up to their order. */
  lemma IdentityIsShape(p: Plan, q: Plan)
    ensures IdentityOf(p) == IdentityOf(q) <==> SameShape(p, q)
  {
    if |p.tasks| == |q.tasks| {
      forall i | 0 <= i < |p.tasks|
        ensures CanonicalOf(p.tasks[i]) == CanonicalOf(q.tasks[i]) <==> SameTask(p.tasks[i], q.tasks[i])
      {
        SortedAlike(p.tasks[i].targetRefs, q.tasks[i].targetRefs);
        SortedAlike(p.tasks[i].dependsOn, q.tasks[i].dependsOn);
      }
      if IdentityOf(p) == IdentityOf(q) {
        forall i | 0 <= i < |p.tasks| ensures SameTask(p.tasks[i], q.tasks[i]) {
          assert IdentityOf(p).tasks[i] == IdentityOf(q).tasks[i];
        }
      }
    } else {
      assert |IdentityOf(p).tasks| != |IdentityOf(q).tasks|;
    }
  }

  /** A bound approval granted for `approved` reaches a task of `current` only if the two plans have
      one shape, and then never a hard-blocked task nor, by default, a high-risk one. The digest need
      only tell these two identities apart. */
  lemma ApprovalCoversOnlyWhatWasApproved(
    digest: Canonical -> string, approved: Plan, current: Plan, approval: Scope, task: TaskOutcome, policy: ApprovalPolicy)
    requires policy.boundToPlanHash && policy.highRiskAlwaysSeparate
    requires approval.planHash == Some(digest(IdentityOf(approved)))
    requires digest(IdentityOf(approved)) == digest(IdentityOf(current)) ==> IdentityOf(approved) == IdentityOf(current)
    requires PlanApprovalCovers(approval, task, digest(IdentityOf(current)), policy).Permitted?
    ensures SameShape(approved, current)
    ensures task.riskTier != High && task.riskTier in approval.coversTiers && !task.HardBlocked()
  {
    IdentityIsShape(approved, current);
  }

  /** Reordering targets or dependencies keeps an approval; reordering or extending the tasks voids it. */
  lemma ShapeChangesVoidTheApproval(
    digest: Canonical -> string, approved: Plan, current: Plan, approval: Scope, task: TaskOutcome, policy: ApprovalPolicy)
    requires policy.boundToPlanHash && approval.kind == PlanScope
    requires approval.planHash == Some(digest(IdentityOf(approved)))
    requires digest(IdentityOf(approved)) == digest(IdentityOf(current)) ==> IdentityOf(approved) == IdentityOf(current)
    ensures (PlanApprovalCovers(approval, task, digest(IdentityOf(current)), policy) == Refused(PlanHashMismatch))
              <==> !SameShape(approved, current)
  {
    IdentityIsShape(approved, current);
  }

  // ---------------------------------------------------------------- the data-layer twin

  /** plan_identity.approval_covers, on raw column values; task ids compare as text. */
  function ApprovalCovers(
    approvedHash: string, currentHash: Option<string>, coveredTaskIds: seq<string>, taskId: string, tier: RiskTier,
    hasFailedCheck: bool): bool
  {
    && currentHash.Some? && currentHash.value != "" && currentHash.value == approvedHash
    && taskId in coveredTaskIds
    && (tier == Low || tier == Medium)
    && !hasFailedCheck
  }

  /** The hash the data layer has on record; without one no plan matches, as with an empty one. */
  function ApprovedHash(approval: Scope): string {
    if approval.planHash.Some? then approval.planHash.value else ""
  }

  /** The data layer covers what the gate refuses: a task listed under the current hash, of low or medium
      tier, under an approval for one action or for other tiers, or hard-blocked without a failed check. */
  predicate DataAlone(approval: Scope, task: TaskOutcome, hash: string, failed: bool) {
    && hash != "" && approval.planHash == Some(hash) && task.taskId in approval.coveredTaskIds
    && task.riskTier != High && !failed
    && (approval.kind != PlanScope || task.riskTier !in approval.coversTiers || task.HardBlocked())
  }

  /** The gate covers what the data layer refuses: an unblocked task of a covered tier, where the hash
      is empty or, unbound, another one, or no task is listed, or the tier is high and need not be
      separate, or a check failed without a hard block. */
  predicate GateAlone(approval: Scope, task: TaskOutcome, hash: string, failed: bool, policy: ApprovalPolicy) {
    && approval.kind == PlanScope && task.riskTier in approval.coversTiers && !task.HardBlocked()
    && (approval.coveredTaskIds == [] || task.taskId in approval.coveredTaskIds)
    && (approval.planHash == Some(hash) || !policy.boundToPlanHash)
    && (task.riskTier != High || !policy.highRiskAlwaysSeparate)
    && (hash == "" || approval.planHash != Some(hash) || approval.coveredTaskIds == [] || task.riskTier == High || failed)
  }

  /** Exactly where the two implementations of the rule differ, over all approvals, tiers and policies. */
  lemma TwinsDifferExactly(approval: Scope, task: TaskOutcome, hash: string, failed: bool, policy: ApprovalPolicy)
    ensures var data := ApprovalCovers(ApprovedHash(approval), Some(hash), approval.coveredTaskIds, task.taskId,
                                       task.riskTier, failed);
            var gate := PlanApprovalCovers(approval, task, hash, policy).Permitted?;
            && (data && !gate <==> DataAlone(approval, task, hash, failed))
            && (gate && !data <==> GateAlone(approval, task, hash, failed, policy))
  {
  }

  /** A plan approval for low and medium tiers, bound to its plan, with high risk always separate. */
  predicate UnderDefaultPolicy(approval: Scope, policy: ApprovalPolicy) {
    && approval.kind == PlanScope && policy.boundToPlanHash && policy.highRiskAlwaysSeparate
    && Low in approval.coversTiers && Medium in approval.coversTiers && High !in approval.coversTiers
  }

  /** On tasks projected from gate results, with the record's own failed checks: the two agree exactly
      where a check failed or neither of the above applies. Under the default policy the data layer covers
      what the gate does, except that it covers nothing for an empty hash or an approval that lists no task. */
  lemma TwinsAgreeExactly(approval: Scope, t: EvaluatedTask, hash: string, policy: ApprovalPolicy)
    ensures var failed := ActionGate.AnyFailed(t.Result().checks);
            var data := ApprovalCovers(ApprovedHash(approval), Some(hash), approval.coveredTaskIds, t.taskId,
                                       t.Result().tier, failed);
            var gate := PlanApprovalCovers(approval, t.Outcome(), hash, policy).Permitted?;
            && (data == gate <==>
                  (failed || (!DataAlone(approval, t.Outcome(), hash, false) && !GateAlone(approval, t.Outcome(), hash, false, policy))))
            && (UnderDefaultPolicy(approval, policy) ==>
                  (data <==> (gate && hash != "" && approval.coveredTaskIds != [])))
  {
    BlockedMeansFailed(t);
    TwinsDifferExactly(approval, t.Outcome(), hash, ActionGate.AnyFailed(t.Result().checks), policy);
  }

  /** Concretely: an approval for low tiers only that lists a medium task under the current hash. The data
      layer covers the task, the gate does not. */
  lemma DataCoversAlone(task: TaskOutcome, hash: string, policy: ApprovalPolicy)
    requires task.riskTier == Medium && hash != ""
    ensures var approval := Scope(PlanScope, Some(hash), [Low], [task.taskId]);
            && ApprovalCovers(hash, Some(hash), approval.coveredTaskIds, task.taskId, task.riskTier, false)
            && PlanApprovalCovers(approval, task, hash, policy) == Refused(TierNotCovered)
  {
    TwinsDifferExactly(Scope(PlanScope, Some(hash), [Low], [task.taskId]), task, hash, false, policy);
  }

  /** And an approval that lists no task, which the gate reads as all of them. */
  lemma GateCoversAlone(task: TaskOutcome, hash: string, policy: ApprovalPolicy)
    requires task.riskTier == Low && !task.HardBlocked()
    ensures var approval := Scope(PlanScope, Some(hash), [Low, Medium], []);
            && PlanApprovalCovers(approval, task, hash, policy) == Permitted
            && !ApprovalCovers(hash, Some(hash), approval.coveredTaskIds, task.taskId, task.riskTier, false)
  {
    TwinsDifferExactly(Scope(PlanScope, Some(hash), [Low, Medium], []), task, hash, false, policy);
  }
}
