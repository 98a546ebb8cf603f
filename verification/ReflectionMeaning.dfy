/** Which proposals and dependencies survive reflection, and what is found about the others, told from the
    proposal alone. */
module ReflectionMeaning {
  import opened Prelude
  import opened Values
  import opened ProposalReflection

  predicate AllAllowed(task: PlanTask, allowed: seq<string>) {
    forall k :: 0 <= k < |task.targetRefs| ==> task.targetRefs[k] in allowed
  }

  /** The first proposal of an available action whose targets are all allowed. */
  ghost predicate KeptPosition(tasks: seq<PlanTask>, i: int, available: set<ActionType>, allowed: seq<string>) {
    && 0 <= i < |tasks| && tasks[i].action in available && AllAllowed(tasks[i], allowed)
    && forall j :: 0 <= j < i && tasks[j].action == tasks[i].action ==> !AllAllowed(tasks[j], allowed)
  }

  ghost predicate Increasing(positions: seq<int>) {
    forall k, l :: 0 <= k < l < |positions| ==> positions[k] < positions[l]
  }

  ghost predicate HasAction(tasks: seq<PlanTask>, action: ActionType) {
    exists t :: t in tasks && t.action == action
  }

  /** `survivor` is `task` with the allowed targets, and of its dependencies those on other survivors. */
  ghost predicate SurvivesAs(task: PlanTask, survivor: PlanTask, plan: seq<PlanTask>, allowed: seq<string>) {
    && survivor.action == task.action && survivor.inputs == task.inputs && survivor.targetRefs == allowed
    && forall d :: d in survivor.dependsOn <==>
         && d in task.dependsOn && d.Known? && d.action != task.action && HasAction(plan, d.action)
  }

  lemma SamePositions(tasks: seq<PlanTask>, i: int, available: set<ActionType>, allowed: seq<string>)
    ensures FirstValid(tasks, i, available, allowed) <==> KeptPosition(tasks, i, available, allowed)
  {
    forall t: PlanTask ensures Valid(t, available, allowed) <==> t.action in available && AllAllowed(t, allowed) {
    }
  }

  /** The plan that survives, position by position: the first proposal of each available action whose
      targets are all allowed, in proposal order, each with the allowed targets and its own inputs. */
  lemma SurvivorsExactly(tasks: seq<PlanTask>, available: set<ActionType>, allowed: seq<string>)
    returns (positions: seq<int>)
    ensures var plan := Reflected(tasks, available, allowed);
            && |positions| == |plan| && Increasing(positions)
            && (forall i :: i in positions <==> KeptPosition(tasks, i, available, allowed))
            && forall k :: 0 <= k < |plan| ==> 0 <= positions[k] < |tasks| && SurvivesAs(tasks[positions[k]], plan[k], plan, allowed)
  {
    positions := KeepsFirstValidInOrder(tasks, available, allowed);
    var kept, plan := Kept(tasks, available, allowed), Reflected(tasks, available, allowed);
    forall i ensures i in positions <==> KeptPosition(tasks, i, available, allowed) {
      SamePositions(tasks, i, available, allowed);
    }
    SameActions(kept, Actions(kept));
    forall k | 0 <= k < |plan| ensures 0 <= positions[k] < |tasks| && SurvivesAs(tasks[positions[k]], plan[k], plan, allowed) {
      RelinkedMeaning(tasks[positions[k]], kept[k], plan, allowed);
    }
  }

  lemma RelinkedMeaning(task: PlanTask, narrowed: PlanTask, plan: seq<PlanTask>, allowed: seq<string>)
    requires narrowed == Narrowed(task, allowed)
    ensures SurvivesAs(task, Relinked(narrowed, Actions(plan)), plan, allowed)
  {
    forall a ensures a in Actions(plan) <==> HasAction(plan, a) {
    }
  }

  /** Every surviving action was proposed with nothing but allowed targets. */
  lemma NothingInventedSurvives(tasks: seq<PlanTask>, available: set<ActionType>, allowed: seq<string>, action: ActionType)
    ensures HasAction(Reflected(tasks, available, allowed), action) <==>
              action in available && exists i :: 0 <= i < |tasks| && tasks[i].action == action && AllAllowed(tasks[i], allowed)
  {
    var plan := Reflected(tasks, available, allowed);
    var positions := SurvivorsExactly(tasks, available, allowed);
    if HasAction(plan, action) {
      var k :| 0 <= k < |plan| && plan[k].action == action;
      assert positions[k] in positions && KeptPosition(tasks, positions[k], available, allowed);
      assert SurvivesAs(tasks[positions[k]], plan[k], plan, allowed);
    }
    if i :| action in available && 0 <= i < |tasks| && tasks[i].action == action && AllAllowed(tasks[i], allowed) {
      var first := FirstClean(tasks, i, available, allowed);
      assert first in positions;
      var k :| 0 <= k < |positions| && positions[k] == first;
      assert SurvivesAs(tasks[positions[k]], plan[k], plan, allowed) && plan[k] in plan;
    }
  }

  lemma {:induction false} FirstClean(tasks: seq<PlanTask>, i: nat, available: set<ActionType>, allowed: seq<string>)
    returns (first: nat)
    requires i < |tasks| && tasks[i].action in available && AllAllowed(tasks[i], allowed)
    ensures KeptPosition(tasks, first, available, allowed) && tasks[first].action == tasks[i].action
  {
    if KeptPosition(tasks, i, available, allowed) {
      return i;
    }
    var j :| 0 <= j < i && tasks[j].action == tasks[i].action && AllAllowed(tasks[j], allowed);
    first := FirstClean(tasks, j, available, allowed);
  }

  // ---------------------------------------------------------------- what is found

  /** The action was already proposed with nothing but allowed targets. */
  ghost predicate AlreadyKept(tasks: seq<PlanTask>, action: ActionType, allowed: seq<string>) {
    exists i :: 0 <= i < |tasks| && tasks[i].action == action && AllAllowed(tasks[i], allowed)
  }

  lemma AlreadyKeptMeaning(tasks: seq<PlanTask>, action: ActionType, available: set<ActionType>, allowed: seq<string>)
    ensures action in Actions(Kept(tasks, available, allowed)) <==> action in available && AlreadyKept(tasks, action, allowed)
  {
    NothingInventedSurvives(tasks, available, allowed, action);
    SameActions(Kept(tasks, available, allowed), Actions(Kept(tasks, available, allowed)));
  }

  /** What one more proposal does to the plan and to the findings of the first pass. No service comes
      before a duplicate, and a duplicate before an invented target. */
  lemma OneMoreProposal(front: seq<PlanTask>, t: PlanTask, available: set<ActionType>, allowed: seq<string>)
    ensures var kept, found := Kept(front, available, allowed), Drops(front, available, allowed);
            var kept', found' := Kept(front + [t], available, allowed), Drops(front + [t], available, allowed);
            if t.action !in available then kept' == kept && found' == found + [Finding(Known(t.action), NoService)]
            else if AlreadyKept(front, t.action, allowed) then kept' == kept && found' == found + [Finding(Known(t.action), Duplicate)]
            else if exists ref :: ref in t.targetRefs && ref !in allowed
            then kept' == kept && found' == found + [Finding(Known(t.action), InventedTarget)]
            else kept' == kept + [PlanTask(t.action, allowed, t.inputs, t.dependsOn)] && found' == found
  {
    assert (front + [t])[..|front|] == front;
    AlreadyKeptMeaning(front, t.action, available, allowed);
  }

  /** A proposal with an invented target does not use up its action: the next clean one is kept. */
  lemma CleanRetryIsKept(
    front: seq<PlanTask>, bad: PlanTask, between: seq<PlanTask>, clean: PlanTask,
    available: set<ActionType>, allowed: seq<string>)
    requires bad.action in available && bad.action == clean.action
    requires !AlreadyKept(front, bad.action, allowed) && !AlreadyKept(between, bad.action, allowed)
    requires !AllAllowed(bad, allowed) && AllAllowed(clean, allowed)
    ensures Drops(front + [bad], available, allowed) ==
              Drops(front, available, allowed) + [Finding(Known(bad.action), InventedTarget)]
    ensures KeptPosition(front + [bad] + between + [clean], |front| + 1 + |between|, available, allowed)
    ensures Kept(front + [bad] + between + [clean], available, allowed) ==
              Kept(front + [bad] + between, available, allowed) + [PlanTask(clean.action, allowed, clean.inputs, clean.dependsOn)]
  {
    OneMoreProposal(front, bad, available, allowed);
    var earlier := front + [bad] + between;
    NotYetKept(front, bad, between, allowed);
    CleanIsKept(earlier, clean, available, allowed);
  }

  lemma CleanIsKept(earlier: seq<PlanTask>, clean: PlanTask, available: set<ActionType>, allowed: seq<string>)
    requires clean.action in available && AllAllowed(clean, allowed) && !AlreadyKept(earlier, clean.action, allowed)
    ensures KeptPosition(earlier + [clean], |earlier|, available, allowed)
    ensures Kept(earlier + [clean], available, allowed) ==
              Kept(earlier, available, allowed) + [PlanTask(clean.action, allowed, clean.inputs, clean.dependsOn)]
  {
    var tasks := earlier + [clean];
    OneMoreProposal(earlier, clean, available, allowed);
    assert tasks[|earlier|] == clean;
    forall j | 0 <= j < |earlier| && tasks[j].action == clean.action ensures !AllAllowed(tasks[j], allowed) {
      assert tasks[j] == earlier[j];
    }
  }

  lemma NotYetKept(front: seq<PlanTask>, bad: PlanTask, between: seq<PlanTask>, allowed: seq<string>)
    requires !AlreadyKept(front, bad.action, allowed) && !AlreadyKept(between, bad.action, allowed) && !AllAllowed(bad, allowed)
    ensures !AlreadyKept(front + [bad] + between, bad.action, allowed)
  {
    var tasks := front + [bad] + between;
    forall i | 0 <= i < |tasks| && tasks[i].action == bad.action ensures !AllAllowed(tasks[i], allowed) {
      if i < |front| {
        assert tasks[i] == front[i];
      } else if i > |front| {
        assert tasks[i] == between[i - |front| - 1];
      }
    }
  }

  /** What one more dependency does: one on itself comes before one on an action that did not survive. */
  lemma OneMoreDependency(front: seq<ActionName>, d: ActionName, own: ActionType, kept: set<ActionType>)
    ensures var resolved, found := Resolved(front, own, kept), EdgeDrops(front, own, kept);
            var resolved', found' := Resolved(front + [d], own, kept), EdgeDrops(front + [d], own, kept);
            if d == Known(own) then resolved' == resolved && found' == found + [Finding(Known(own), SelfDependency)]
            else if forall a :: a in kept ==> d != Known(a)
            then resolved' == resolved && found' == found + [Finding(Known(own), UnknownDependency)]
            else resolved' == resolved + [d] && found' == found
  {
    assert (front + [d])[..|front|] == front;
  }

  ghost predicate GoodDependency(d: ActionName, own: ActionType, kept: set<ActionType>) {
    d != Known(own) && exists a :: a in kept && d == Known(a)
  }

  /** The dependencies that survive are those on other survivors, in their order and as often as listed;
      each of the others has one finding. */
  lemma {:induction false} DependenciesKeepTheirOrder(dependencies: seq<ActionName>, own: ActionType, kept: set<ActionType>)
    returns (positions: seq<int>)
    ensures GoodPositions(dependencies, Resolved(dependencies, own, kept), positions, own, kept)
    ensures |EdgeDrops(dependencies, own, kept)| == |dependencies| - |positions|
  {
    if dependencies == [] {
      return [];
    }
    var n := |dependencies| - 1;
    var front := dependencies[..n];
    assert dependencies == front + [dependencies[n]];
    OneMoreDependency(front, dependencies[n], own, kept);
    var earlier := DependenciesKeepTheirOrder(front, own, kept);
    positions := if GoodDependency(dependencies[n], own, kept) then earlier + [n] else earlier;
    OnePositionMore(front, dependencies[n], Resolved(front, own, kept), earlier, own, kept);
  }

  ghost predicate GoodPositions(
    dependencies: seq<ActionName>, resolved: seq<ActionName>, positions: seq<int>, own: ActionType, kept: set<ActionType>)
  {
    && Increasing(positions) && |positions| == |resolved|
    && (forall i :: i in positions <==> 0 <= i < |dependencies| && GoodDependency(dependencies[i], own, kept))
    && forall k :: 0 <= k < |positions| ==> 0 <= positions[k] < |dependencies| && resolved[k] == dependencies[positions[k]]
  }

  lemma OnePositionMore(
    front: seq<ActionName>, d: ActionName, resolved: seq<ActionName>, earlier: seq<int>, own: ActionType, kept: set<ActionType>)
    requires GoodPositions(front, resolved, earlier, own, kept)
    ensures if GoodDependency(d, own, kept) then GoodPositions(front + [d], resolved + [d], earlier + [|front|], own, kept)
            else GoodPositions(front + [d], resolved, earlier, own, kept)
  {
    var all := front + [d];
    forall i | 0 <= i < |front| ensures all[i] == front[i] {
    }
    assert all[|front|] == d;
  }

  function DependencyCount(tasks: seq<PlanTask>): nat {
    if tasks == [] then 0 else DependencyCount(tasks[..|tasks| - 1]) + |tasks[|tasks| - 1].dependsOn|
  }

  /** No dependency of a kept task is dropped without a finding. */
  lemma {:induction false} NoEdgeIsDroppedSilently(tasks: seq<PlanTask>, kept: set<ActionType>)
    ensures DependencyCount(tasks) == DependencyCount(RelinkAll(tasks, kept)) + |AllEdgeDrops(tasks, kept)|
  {
    if tasks != [] {
      var n := |tasks| - 1;
      var front, last := tasks[..n], tasks[n];
      NoEdgeIsDroppedSilently(front, kept);
      assert RelinkAll(tasks, kept)[..n] == RelinkAll(front, kept);
      var positions := DependenciesKeepTheirOrder(last.dependsOn, last.action, kept);
    }
  }

  /** The plan is rejected exactly when no proposal of an available action has only allowed targets. */
  lemma RejectedExactly(tasks: seq<PlanTask>, available: set<ActionType>, allowed: seq<string>)
    ensures Reflected(tasks, available, allowed) == [] <==>
              forall i :: 0 <= i < |tasks| && tasks[i].action in available ==>
                exists ref :: ref in tasks[i].targetRefs && ref !in allowed
    ensures Reflected(tasks, available, allowed) == [] <==>
              Finding(Unknown("-"), NothingExecutable) in Findings(tasks, available, allowed)
  {
    var plan := Reflected(tasks, available, allowed);
    var positions := SurvivorsExactly(tasks, available, allowed);
    if plan != [] {
      assert positions[0] in positions && KeptPosition(tasks, positions[0], available, allowed);
    } else {
      forall i | 0 <= i < |tasks| && tasks[i].action in available ensures exists ref :: ref in tasks[i].targetRefs && ref !in allowed {
        NothingInventedSurvives(tasks, available, allowed, tasks[i].action);
      }
    }
    NamedFindings(tasks, available, allowed);
    EdgeFindingsNamed(Kept(tasks, available, allowed), Actions(Kept(tasks, available, allowed)));
  }

  lemma {:induction false} NamedFindings(tasks: seq<PlanTask>, available: set<ActionType>, allowed: seq<string>)
    ensures forall f :: f in Drops(tasks, available, allowed) ==> f.action.Known?
  {
    if tasks != [] {
      NamedFindings(tasks[..|tasks| - 1], available, allowed);
    }
  }

  lemma {:induction false} EdgeFindingsNamed(tasks: seq<PlanTask>, kept: set<ActionType>)
    ensures forall f :: f in AllEdgeDrops(tasks, kept) ==> f.action.Known?
  {
    if tasks != [] {
      EdgeFindingsNamed(tasks[..|tasks| - 1], kept);
      TaskFindingsNamed(tasks[|tasks| - 1].dependsOn, tasks[|tasks| - 1].action, kept);
    }
  }

  lemma {:induction false} TaskFindingsNamed(dependencies: seq<ActionName>, own: ActionType, kept: set<ActionType>)
    ensures forall f :: f in EdgeDrops(dependencies, own, kept) ==> f.action.Known?
  {
    if dependencies != [] {
      TaskFindingsNamed(dependencies[..|dependencies| - 1], own, kept);
    }
  }
}
