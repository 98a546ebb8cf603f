/** Reflection on a proposed plan: two passes that narrow it to what can be carried out. */
module ProposalReflection {
  import opened Prelude
  import opened Values

  /** `dependsOn` holds text that may or may not name an action. */
  datatype PlanTask = PlanTask(
    action: ActionType,
    targetRefs: seq<string>,
    inputs: map<string, Value>,
    dependsOn: seq<ActionName>)

  datatype FindingCode = NoService | Duplicate | InventedTarget | SelfDependency | UnknownDependency | NothingExecutable

  datatype Finding = Finding(action: ActionName, code: FindingCode)

  // ---------------------------------------------------------------- first pass

  predicate Valid(task: PlanTask, available: set<ActionType>, allowed: seq<string>) {
    task.action in available && forall ref :: ref in task.targetRefs ==> ref in allowed
  }

  function Actions(tasks: seq<PlanTask>): set<ActionType> {
    set t | t in tasks :: t.action
  }

  /** A kept task with the orchestrator's own targets. */
  function Narrowed(task: PlanTask, allowed: seq<string>): PlanTask { task.(targetRefs := allowed) }

  function Kept(tasks: seq<PlanTask>, available: set<ActionType>, allowed: seq<string>): seq<PlanTask> {
    if tasks == [] then []
    else
      var front, last := Kept(tasks[..|tasks| - 1], available, allowed), tasks[|tasks| - 1];
      if Valid(last, available, allowed) && last.action !in Actions(front) then front + [Narrowed(last, allowed)] else front
  }

  function DropCode(task: PlanTask, kept: seq<PlanTask>, available: set<ActionType>): FindingCode {
    if task.action !in available then NoService
    else if task.action in Actions(kept) then Duplicate
    else InventedTarget
  }

  function Drops(tasks: seq<PlanTask>, available: set<ActionType>, allowed: seq<string>): seq<Finding> {
    if tasks == [] then []
    else
      var front, last := tasks[..|tasks| - 1], tasks[|tasks| - 1];
      var kept := Kept(front, available, allowed);
      if Valid(last, available, allowed) && last.action !in Actions(kept) then Drops(front, available, allowed)
      else Drops(front, available, allowed) + [Finding(Known(last.action), DropCode(last, kept, available))]
  }

  // ---------------------------------------------------------------- second pass

  predicate Survives(dependency: ActionName, own: ActionType, kept: set<ActionType>) {
    dependency.Known? && dependency.action != own && dependency.action in kept
  }

  function Resolved(dependencies: seq<ActionName>, own: ActionType, kept: set<ActionType>): (r: seq<ActionName>)
    ensures forall d :: d in r <==> d in dependencies && Survives(d, own, kept)
  {
    if dependencies == [] then []
    else
      var front, last := dependencies[..|dependencies| - 1], dependencies[|dependencies| - 1];
      assert dependencies == front + [last];
      if Survives(last, own, kept) then Resolved(front, own, kept) + [last] else Resolved(front, own, kept)
  }

  function EdgeDrops(dependencies: seq<ActionName>, own: ActionType, kept: set<ActionType>): seq<Finding> {
    if dependencies == [] then []
    else
      var front, last := dependencies[..|dependencies| - 1], dependencies[|dependencies| - 1];
      if Survives(last, own, kept) then EdgeDrops(front, own, kept)
      else
        EdgeDrops(front, own, kept)
        + [Finding(Known(own), if last == Known(own) then SelfDependency else UnknownDependency)]
  }

  function Relinked(task: PlanTask, kept: set<ActionType>): PlanTask {
    task.(dependsOn := Resolved(task.dependsOn, task.action, kept))
  }

  function RelinkAll(tasks: seq<PlanTask>, kept: set<ActionType>): (r: seq<PlanTask>)
    ensures |r| == |tasks| && forall i :: 0 <= i < |r| ==> r[i] == Relinked(tasks[i], kept)
  {
    seq(|tasks|, i requires 0 <= i < |tasks| => Relinked(tasks[i], kept))
  }

  function AllEdgeDrops(tasks: seq<PlanTask>, kept: set<ActionType>): seq<Finding> {
    if tasks == [] then []
    else
      var last := tasks[|tasks| - 1];
      AllEdgeDrops(tasks[..|tasks| - 1], kept) + EdgeDrops(last.dependsOn, last.action, kept)
  }

  /** The surviving plan. */
  function Reflected(tasks: seq<PlanTask>, available: set<ActionType>, allowed: seq<string>): seq<PlanTask> {
    var kept := Kept(tasks, available, allowed);
    RelinkAll(kept, Actions(kept))
  }

  /** Everything dropped on the way, in the order it was noticed. */
  function Findings(tasks: seq<PlanTask>, available: set<ActionType>, allowed: seq<string>): seq<Finding> {
    var kept := Kept(tasks, available, allowed);
    Drops(tasks, available, allowed) + AllEdgeDrops(kept, Actions(kept))
    + if kept == [] then [Finding(Unknown("-"), NothingExecutable)] else []
  }

  predicate AnyBlank(refs: seq<string>) {
    exists ref :: ref in refs && Blank(ref)
  }

  /** The outcome object that both passes fill in. */
  class Reflection {
    var tasks: seq<PlanTask>
    var findings: seq<Finding>
    var rejected: bool

    constructor ()
      ensures tasks == [] && findings == [] && !rejected
    {
      tasks, findings, rejected := [], [], false;
    }

    /** The inner loop of the second pass: one task's dependencies. */
    method Relink(k: nat, kept: set<ActionType>)
      requires k < |tasks|
      modifies this`tasks, this`findings
      ensures tasks == old(tasks)[k := Relinked(old(tasks)[k], kept)]
      ensures findings == old(findings) + EdgeDrops(old(tasks)[k].dependsOn, old(tasks)[k].action, kept)
    {
      var task := tasks[k];
      var resolved: seq<ActionName> := [];
      for i := 0 to |task.dependsOn|
        invariant tasks == old(tasks)
        invariant resolved == Resolved(task.dependsOn[..i], task.action, kept)
        invariant findings == old(findings) + EdgeDrops(task.dependsOn[..i], task.action, kept)
      {
        var dependency := task.dependsOn[i];
        assert task.dependsOn[..i + 1][..i] == task.dependsOn[..i];
        if dependency == Known(task.action) {
          findings := findings + [Finding(Known(task.action), SelfDependency)];
          continue;
        }
        if dependency.Unknown? || dependency.action !in kept {
          findings := findings + [Finding(Known(task.action), UnknownDependency)];
          continue;
        }
        resolved := resolved + [dependency];
      }
      assert task.dependsOn[..|task.dependsOn|] == task.dependsOn;
      tasks := tasks[k := task.(dependsOn := resolved)];
    }

    /** Keep the first valid proposal of each action. */
    method FirstPass(proposal: seq<PlanTask>, available: set<ActionType>, allowed: seq<string>) returns (raised: bool)
      requires tasks == [] && findings == []
      modifies this`tasks, this`findings
      ensures raised <==> AnyBlank(allowed) && Kept(proposal, available, allowed) != []
      ensures !raised ==> tasks == Kept(proposal, available, allowed) && findings == Drops(proposal, available, allowed)
    {
      var seen: set<ActionType> := {};
      for i := 0 to |proposal|
        invariant tasks == Kept(proposal[..i], available, allowed) && seen == Actions(tasks)
        invariant findings == Drops(proposal[..i], available, allowed)
        invariant AnyBlank(allowed) ==> tasks == []
      {
        var task := proposal[i];
        assert proposal[..i + 1][..i] == proposal[..i];
        if task.action !in available {
          findings := findings + [Finding(Known(task.action), NoService)];
          continue;
        }
        if task.action in seen {
          findings := findings + [Finding(Known(task.action), Duplicate)];
          continue;
        }
        if exists ref :: ref in task.targetRefs && ref !in allowed {
          findings := findings + [Finding(Known(task.action), InventedTarget)];
          continue;
        }
        seen := seen + {task.action};
        if AnyBlank(allowed) {
          KeptOnlyGrows(proposal, i + 1, available, allowed);
          return true;
        }
        tasks := tasks + [Narrowed(task, allowed)];
      }
      assert proposal[..|proposal|] == proposal;
      return false;
    }

    /** Overwrite every kept task's dependencies with those that survive. */
    method SecondPass()
      modifies this`tasks, this`findings
      ensures tasks == RelinkAll(old(tasks), Actions(old(tasks)))
      ensures findings == old(findings) + AllEdgeDrops(old(tasks), Actions(old(tasks)))
    {
      var kept := Actions(tasks);
      var count := |tasks|;
      for k := 0 to count
        invariant |tasks| == count == |old(tasks)|
        invariant forall j :: 0 <= j < count ==> tasks[j] == if j < k then Relinked(old(tasks)[j], kept) else old(tasks)[j]
        invariant findings == old(findings) + AllEdgeDrops(old(tasks)[..k], kept)
      {
        ghost var before := old(tasks);
        assert before[..k + 1][..k] == before[..k] && before[..k + 1][k] == before[k] == tasks[k];
        Relink(k, kept);
      }
      assert old(tasks)[..count] == old(tasks);
    }
  }

  /** reflect. Keeping a task validates its new targets, so a blank allowed target raises then. */
  method Reflect(proposal: seq<PlanTask>, available: set<ActionType>, allowed: seq<string>)
    returns (raised: bool, result: Reflection)
    ensures raised <==> AnyBlank(allowed) && Kept(proposal, available, allowed) != []
    ensures fresh(result)
    ensures !raised ==> result.tasks == Reflected(proposal, available, allowed)
    ensures !raised ==> result.findings == Findings(proposal, available, allowed)
    ensures !raised ==> (result.rejected <==> result.tasks == [])
  {
    result := new Reflection();
    raised := result.FirstPass(proposal, available, allowed);
    if raised {
      return;
    }
    result.SecondPass();
    if result.tasks == [] {
      result.rejected := true;
      result.findings := result.findings + [Finding(Unknown("-"), NothingExecutable)];
    }
  }

  lemma {:induction false} KeptOnlyGrows(tasks: seq<PlanTask>, i: nat, available: set<ActionType>, allowed: seq<string>)
    requires i <= |tasks|
    ensures |Kept(tasks[..i], available, allowed)| <= |Kept(tasks, available, allowed)|
    decreases |tasks| - i
  {
    if i < |tasks| {
      assert tasks[..i + 1][..i] == tasks[..i];
      KeptOnlyGrows(tasks, i + 1, available, allowed);
    } else {
      assert tasks[..i] == tasks;
    }
  }

  // ---------------------------------------------------------------- laws

  /** Position i holds the first valid proposal of its action. */
  ghost predicate FirstValid(tasks: seq<PlanTask>, i: int, available: set<ActionType>, allowed: seq<string>) {
    && 0 <= i < |tasks| && Valid(tasks[i], available, allowed)
    && forall j :: 0 <= j < i ==> !(Valid(tasks[j], available, allowed) && tasks[j].action == tasks[i].action)
  }

  /** `positions` lists, in order, the tasks that were kept. */
  ghost predicate KeptAt(tasks: seq<PlanTask>, positions: seq<int>, available: set<ActionType>, allowed: seq<string>) {
    var kept := Kept(tasks, available, allowed);
    && |positions| == |kept|
    && (forall k :: 0 <= k < |kept| ==> 0 <= positions[k] < |tasks| && kept[k] == Narrowed(tasks[positions[k]], allowed))
    && (forall k, l :: 0 <= k < l < |positions| ==> positions[k] < positions[l])
    && (forall i :: FirstValid(tasks, i, available, allowed) <==> i in positions)
  }

  /** The first pass keeps exactly the first valid proposal of each action, in proposal order. */
  lemma {:induction false} KeepsFirstValidInOrder(tasks: seq<PlanTask>, available: set<ActionType>, allowed: seq<string>)
    returns (positions: seq<int>)
    ensures KeptAt(tasks, positions, available, allowed)
  {
    if tasks == [] {
      return [];
    }
    var front, n := tasks[..|tasks| - 1], |tasks| - 1;
    var earlier := KeepsFirstValidInOrder(front, available, allowed);
    LastIsFirstValid(tasks, earlier, available, allowed);
    positions := if FirstValid(tasks, n, available, allowed) then earlier + [n] else earlier;
    forall i ensures FirstValid(tasks, i, available, allowed) <==> i in positions {
      if i != n { FirstValidOfPrefix(tasks, i, available, allowed); }
    }
  }

  lemma FirstValidOfPrefix(tasks: seq<PlanTask>, i: int, available: set<ActionType>, allowed: seq<string>)
    requires tasks != [] && i != |tasks| - 1
    ensures FirstValid(tasks, i, available, allowed) <==> FirstValid(tasks[..|tasks| - 1], i, available, allowed)
  {
    var front := tasks[..|tasks| - 1];
    assert forall j :: 0 <= j <= i && i < |front| ==> tasks[j] == front[j];
  }

  lemma LastIsFirstValid(tasks: seq<PlanTask>, earlier: seq<int>, available: set<ActionType>, allowed: seq<string>)
    requires tasks != [] && KeptAt(tasks[..|tasks| - 1], earlier, available, allowed)
    ensures var last := tasks[|tasks| - 1];
            FirstValid(tasks, |tasks| - 1, available, allowed) <==>
              Valid(last, available, allowed) && last.action !in Actions(Kept(tasks[..|tasks| - 1], available, allowed))
  {
    var front, last := tasks[..|tasks| - 1], tasks[|tasks| - 1];
    var kept := Kept(front, available, allowed);
    forall j | 0 <= j < |front| && Valid(tasks[j], available, allowed) ensures tasks[j].action in Actions(kept) {
      assert front[j] == tasks[j];
      ValidActionIsKept(front, earlier, available, allowed, j);
    }
    if last.action in Actions(kept) {
      var k :| 0 <= k < |kept| && kept[k].action == last.action;
      assert earlier[k] in earlier && FirstValid(front, earlier[k], available, allowed);
      assert tasks[earlier[k]] == front[earlier[k]];
    }
  }

  lemma ValidActionIsKept(
    tasks: seq<PlanTask>, positions: seq<int>, available: set<ActionType>, allowed: seq<string>, j: int)
    requires KeptAt(tasks, positions, available, allowed) && 0 <= j < |tasks| && Valid(tasks[j], available, allowed)
    ensures tasks[j].action in Actions(Kept(tasks, available, allowed))
  {
    var kept := Kept(tasks, available, allowed);
    var i := FirstOf(tasks, j, available, allowed);
    var k :| 0 <= k < |positions| && positions[k] == i;
    assert kept[k] in kept && kept[k].action == tasks[i].action;
  }

  lemma {:induction false} FirstOf(tasks: seq<PlanTask>, j: int, available: set<ActionType>, allowed: seq<string>) returns (i: int)
    requires 0 <= j < |tasks| && Valid(tasks[j], available, allowed)
    ensures FirstValid(tasks, i, available, allowed) && tasks[i].action == tasks[j].action
    decreases j
  {
    if FirstValid(tasks, j, available, allowed) {
      return j;
    }
    var k :| 0 <= k < j && Valid(tasks[k], available, allowed) && tasks[k].action == tasks[j].action;
    i := FirstOf(tasks, k, available, allowed);
  }

  /** Every proposed task is either kept or accounted for by one first-pass finding. */
  lemma {:induction false} NothingIsDroppedSilently(tasks: seq<PlanTask>, available: set<ActionType>, allowed: seq<string>)
    ensures |tasks| == |Kept(tasks, available, allowed)| + |Drops(tasks, available, allowed)|
  {
    if tasks != [] {
      NothingIsDroppedSilently(tasks[..|tasks| - 1], available, allowed);
    }
  }

  ghost predicate Edge(tasks: seq<PlanTask>, a: ActionType, b: ActionType) {
    exists t :: t in tasks && t.action == a && Known(b) in t.dependsOn
  }

  /** Surviving dependencies name other surviving actions, and each was already proposed. */
  lemma SurvivingEdges(tasks: seq<PlanTask>, available: set<ActionType>, allowed: seq<string>)
    ensures var r := Reflected(tasks, available, allowed);
            && (forall t, d :: t in r && d in t.dependsOn ==> d.Known? && d.action != t.action && d.action in Actions(r))
            && (forall a, b :: Edge(r, a, b) ==> Edge(tasks, a, b))
  {
    var kept, r := Kept(tasks, available, allowed), Reflected(tasks, available, allowed);
    SameActions(kept, Actions(kept));
    var positions := KeepsFirstValidInOrder(tasks, available, allowed);
    forall a, b | Edge(r, a, b) ensures Edge(tasks, a, b) {
      var t :| t in r && t.action == a && Known(b) in t.dependsOn;
      var k :| 0 <= k < |r| && r[k] == t;
      assert tasks[positions[k]] in tasks && kept[k] == Narrowed(tasks[positions[k]], allowed);
    }
  }

  lemma SameActions(tasks: seq<PlanTask>, kept: set<ActionType>)
    ensures Actions(RelinkAll(tasks, kept)) == Actions(tasks)
  {
    var r := RelinkAll(tasks, kept);
    forall a ensures a in Actions(r) <==> a in Actions(tasks) {
      if a in Actions(r) {
        var i :| 0 <= i < |r| && r[i].action == a;
        assert tasks[i] in tasks;
      }
      if a in Actions(tasks) {
        var i :| 0 <= i < |tasks| && tasks[i].action == a;
        assert r[i] in r;
      }
    }
  }

  ghost predicate Cycle(tasks: seq<PlanTask>, walk: seq<ActionType>) {
    |walk| >= 2 && walk[0] == walk[|walk| - 1] && forall i :: 0 <= i < |walk| - 1 ==> Edge(tasks, walk[i], walk[i + 1])
  }

  /** An acyclic proposal stays acyclic: a cycle of the surviving plan was proposed, and has no self-loop. */
  lemma AcyclicStaysAcyclic(tasks: seq<PlanTask>, available: set<ActionType>, allowed: seq<string>, walk: seq<ActionType>)
    requires Cycle(Reflected(tasks, available, allowed), walk)
    ensures Cycle(tasks, walk) && forall i :: 0 <= i < |walk| - 1 ==> walk[i] != walk[i + 1]
  {
    SurvivingEdges(tasks, available, allowed);
  }

  /** A dependency, of the first valid proposal of one action, on another action. */
  ghost predicate KeptEdge(
    tasks: seq<PlanTask>, available: set<ActionType>, allowed: seq<string>, a: ActionType, b: ActionType)
  {
    a != b && exists i :: FirstValid(tasks, i, available, allowed) && tasks[i].action == a && Known(b) in tasks[i].dependsOn
  }

  lemma EdgesComeFromKept(tasks: seq<PlanTask>, available: set<ActionType>, allowed: seq<string>, a: ActionType, b: ActionType)
    requires Edge(Reflected(tasks, available, allowed), a, b)
    ensures KeptEdge(tasks, available, allowed, a, b)
  {
    var kept, r := Kept(tasks, available, allowed), Reflected(tasks, available, allowed);
    var positions := KeepsFirstValidInOrder(tasks, available, allowed);
    var t :| t in r && t.action == a && Known(b) in t.dependsOn;
    var k :| 0 <= k < |r| && r[k] == t;
    assert positions[k] in positions && FirstValid(tasks, positions[k], available, allowed);
    assert kept[k] == Narrowed(tasks[positions[k]], allowed) && r[k] == Relinked(kept[k], Actions(kept));
  }

  lemma KeptEdgesStay(tasks: seq<PlanTask>, available: set<ActionType>, allowed: seq<string>, a: ActionType, b: ActionType)
    requires KeptEdge(tasks, available, allowed, a, b)
    ensures var kept := Actions(Kept(tasks, available, allowed));
            a in kept && (b in kept ==> Edge(Reflected(tasks, available, allowed), a, b))
  {
    var kept, r := Kept(tasks, available, allowed), Reflected(tasks, available, allowed);
    var positions := KeepsFirstValidInOrder(tasks, available, allowed);
    var i :| FirstValid(tasks, i, available, allowed) && tasks[i].action == a && Known(b) in tasks[i].dependsOn;
    assert i in positions;
    var k :| 0 <= k < |positions| && positions[k] == i;
    assert kept[k] == Narrowed(tasks[i], allowed) && kept[k] in kept;
    assert r[k] == Relinked(kept[k], Actions(kept)) && r[k] in r;
  }

  ghost predicate KeptCycle(tasks: seq<PlanTask>, available: set<ActionType>, allowed: seq<string>, walk: seq<ActionType>) {
    && |walk| >= 2 && walk[0] == walk[|walk| - 1]
    && forall i :: 0 <= i < |walk| - 1 ==> KeptEdge(tasks, available, allowed, walk[i], walk[i + 1])
  }

  /** Exactly which cycles survive: those among the first valid proposals, with no self-dependency as
      a step. So the result is acyclic exactly when those proposals have no such cycle. */
  lemma CyclesSurviveExactly(tasks: seq<PlanTask>, available: set<ActionType>, allowed: seq<string>, walk: seq<ActionType>)
    ensures Cycle(Reflected(tasks, available, allowed), walk) <==> KeptCycle(tasks, available, allowed, walk)
  {
    var r, kept := Reflected(tasks, available, allowed), Actions(Kept(tasks, available, allowed));
    if Cycle(r, walk) {
      forall i | 0 <= i < |walk| - 1 ensures KeptEdge(tasks, available, allowed, walk[i], walk[i + 1]) {
        EdgesComeFromKept(tasks, available, allowed, walk[i], walk[i + 1]);
      }
    }
    if KeptCycle(tasks, available, allowed, walk) {
      forall i | 0 <= i < |walk| - 1 ensures walk[i] in kept {
        KeptEdgesStay(tasks, available, allowed, walk[i], walk[i + 1]);
      }
      forall i | 0 <= i < |walk| - 1 ensures Edge(r, walk[i], walk[i + 1]) {
        assert walk[if i + 1 < |walk| - 1 then i + 1 else 0] in kept;
        KeptEdgesStay(tasks, available, allowed, walk[i], walk[i + 1]);
      }
    }
  }

  /** The documentation speaks of cycles, but only self-dependencies are removed: two tasks that depend
      on each other both survive, each still waiting for the other. */
  lemma LongerCyclesSurvive(a: ActionType, b: ActionType, allowed: seq<string>, inputs: map<string, Value>)
    requires a != b
    ensures var tasks := [PlanTask(a, allowed, inputs, [Known(b)]), PlanTask(b, allowed, inputs, [Known(a)])];
            Reflected(tasks, {a, b}, allowed) == tasks && Cycle(tasks, [a, b, a])
  {
    var tasks := [PlanTask(a, allowed, inputs, [Known(b)]), PlanTask(b, allowed, inputs, [Known(a)])];
    KeepsCleanPlan(tasks, {a, b}, allowed);
    assert tasks[0] in tasks && tasks[1] in tasks;
    assert Actions(tasks) == {a, b};
    RelinksWhole(tasks[0], b, {a, b});
    RelinksWhole(tasks[1], a, {a, b});
    assert RelinkAll(tasks, {a, b}) == tasks;
    CycleOfTwo(tasks, a, b);
  }

  lemma RelinksWhole(task: PlanTask, dependency: ActionType, kept: set<ActionType>)
    requires task.dependsOn == [Known(dependency)] && dependency != task.action && dependency in kept
    ensures Relinked(task, kept) == task
  {
    ResolvedWhole(task.dependsOn, task.action, kept);
  }

  lemma CycleOfTwo(tasks: seq<PlanTask>, a: ActionType, b: ActionType)
    requires Edge(tasks, a, b) && Edge(tasks, b, a)
    ensures Cycle(tasks, [a, b, a])
  {
  }

  lemma {:induction false} ResolvedWhole(dependencies: seq<ActionName>, own: ActionType, kept: set<ActionType>)
    requires forall d :: d in dependencies ==> Survives(d, own, kept)
    ensures Resolved(dependencies, own, kept) == dependencies && EdgeDrops(dependencies, own, kept) == []
  {
    if dependencies != [] {
      assert dependencies == dependencies[..|dependencies| - 1] + [dependencies[|dependencies| - 1]];
      ResolvedWhole(dependencies[..|dependencies| - 1], own, kept);
    }
  }

  /** Reflecting on a surviving plan changes nothing and finds nothing. */
  lemma ReflectionIsIdempotent(tasks: seq<PlanTask>, available: set<ActionType>, allowed: seq<string>)
    requires Reflected(tasks, available, allowed) != []
    ensures var r := Reflected(tasks, available, allowed);
            Reflected(r, available, allowed) == r && Findings(r, available, allowed) == []
  {
    var kept, r := Kept(tasks, available, allowed), Reflected(tasks, available, allowed);
    SurvivingEdges(tasks, available, allowed);
    SurvivorsAreDistinct(tasks, available, allowed);
    KeepsCleanPlan(r, available, allowed);
    forall i | 0 <= i < |r| ensures Relinked(r[i], Actions(r)) == r[i] {
      assert r[i] in r;
      ResolvedWhole(r[i].dependsOn, r[i].action, Actions(r));
    }
    assert RelinkAll(r, Actions(r)) == r;
    NoEdgeDrops(r, Actions(r));
  }

  lemma SurvivorsAreDistinct(tasks: seq<PlanTask>, available: set<ActionType>, allowed: seq<string>)
    ensures var r := Reflected(tasks, available, allowed);
            && (forall i, j :: 0 <= i < j < |r| ==> r[i].action != r[j].action)
            && (forall i :: 0 <= i < |r| ==> r[i].action in available && r[i].targetRefs == allowed)
  {
    var kept := Kept(tasks, available, allowed);
    var positions := KeepsFirstValidInOrder(tasks, available, allowed);
    forall i | 0 <= i < |kept| ensures FirstValid(tasks, positions[i], available, allowed) {
      assert positions[i] in positions;
    }
  }

  lemma KeepsCleanPlan(r: seq<PlanTask>, available: set<ActionType>, allowed: seq<string>)
    requires forall i, j :: 0 <= i < j < |r| ==> r[i].action != r[j].action
    requires forall i :: 0 <= i < |r| ==> r[i].action in available && r[i].targetRefs == allowed
    ensures Kept(r, available, allowed) == r && Drops(r, available, allowed) == []
  {
    KeepsCleanPrefix(r, |r|, available, allowed);
    assert r[..|r|] == r;
  }

  lemma {:induction false} KeepsCleanPrefix(r: seq<PlanTask>, n: nat, available: set<ActionType>, allowed: seq<string>)
    requires forall i, j :: 0 <= i < j < |r| ==> r[i].action != r[j].action
    requires forall i :: 0 <= i < |r| ==> r[i].action in available && r[i].targetRefs == allowed
    requires n <= |r|
    ensures Kept(r[..n], available, allowed) == r[..n] && Drops(r[..n], available, allowed) == []
  {
    if n > 0 {
      var front, last := r[..n - 1], r[n - 1];
      KeepsCleanPrefix(r, n - 1, available, allowed);
      assert last.action !in Actions(front);
      KeepsOneMore(front, last, available, allowed);
      assert r[..n] == front + [last];
    }
  }

  lemma KeepsOneMore(front: seq<PlanTask>, last: PlanTask, available: set<ActionType>, allowed: seq<string>)
    requires Kept(front, available, allowed) == front && Drops(front, available, allowed) == []
    requires last.action in available && last.targetRefs == allowed && last.action !in Actions(front)
    ensures Kept(front + [last], available, allowed) == front + [last] && Drops(front + [last], available, allowed) == []
  {
    assert (front + [last])[..|front|] == front;
    assert Valid(last, available, allowed) && Narrowed(last, allowed) == last;
  }

  lemma {:induction false} NoEdgeDrops(tasks: seq<PlanTask>, kept: set<ActionType>)
    requires forall t, d :: t in tasks && d in t.dependsOn ==> Survives(d, t.action, kept)
    ensures AllEdgeDrops(tasks, kept) == []
  {
    if tasks != [] {
      assert tasks == tasks[..|tasks| - 1] + [tasks[|tasks| - 1]];
      NoEdgeDrops(tasks[..|tasks| - 1], kept);
      assert tasks[|tasks| - 1] in tasks;
      ResolvedWhole(tasks[|tasks| - 1].dependsOn, tasks[|tasks| - 1].action, kept);
    }
  }
}
