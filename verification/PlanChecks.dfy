/** The six plan checks. */
module PlanChecks {
  import opened Prelude
  import opened Aggregation
  import opened PlanContract
  import opened TaskGraph

  function PassedCheck(name: PlanCheckName): PlanCheckResult {
    Report(name, Passed, Ok, None)
  }

  function FailedCheck(name: PlanCheckName, code: PlanReasonCode): PlanCheckResult {
    Report(name, Failed, code, None)
  }

  function ByCode(name: PlanCheckName, code: PlanReasonCode): PlanCheckResult {
    if code == Ok then PassedCheck(name) else FailedCheck(name, code)
  }

  // ---------------------------------------------------------------- 1. authorisation

  function TasksAuthorisedCode(tasks: seq<TaskOutcome>): PlanReasonCode {
    if tasks == [] then PlanEmpty
    else if exists t :: t in tasks && t.blockingKinds == [] && t.decision == NeedsHuman then TaskEvaluationMissing
    else if exists t :: t in tasks && t.HardBlocked() then TaskNotAuthorised
    else Ok
  }

  // ---------------------------------------------------------------- 2. dependencies

  ghost predicate IsTask(tasks: seq<TaskOutcome>, id: string) {
    exists t :: t in tasks && t.taskId == id
  }

  ghost predicate IsHardBlocked(tasks: seq<TaskOutcome>, id: string) {
    exists t :: t in tasks && t.taskId == id && t.HardBlocked()
  }

  ghost predicate DependenciesKnown(tasks: seq<TaskOutcome>) {
    forall t, dep :: t in tasks && dep in t.dependsOn ==> IsTask(tasks, dep)
  }

  ghost predicate DependsOnNoBlock(tasks: seq<TaskOutcome>) {
    forall t, dep :: t in tasks && dep in t.dependsOn ==> !IsHardBlocked(tasks, dep)
  }

  ghost function DependenciesCode(tasks: seq<TaskOutcome>): PlanReasonCode {
    if !DependenciesKnown(tasks) then DependencyUnknown
    else if !Schedulable(EdgesOf(tasks)) then DependencyCycle
    else if !DependsOnNoBlock(tasks) then DependencyBlocked
    else Ok
  }

  /** dependencies_sound */
  method CheckDependencies(tasks: seq<TaskOutcome>) returns (r: PlanCheckResult)
    ensures r == ByCode(DependenciesSound, DependenciesCode(tasks))
    ensures r.code == DependencyCycle ==> exists walk :: ClosedWalk(EdgesOf(tasks), walk)
    ensures r.code == Ok ==> Acyclic(EdgesOf(tasks))
  {
    var known := set t | t in tasks :: t.taskId;
    var hardBlocked := set t | t in tasks && t.HardBlocked() :: t.taskId;
    var unknown: seq<(string, string)> := [];
    var blockedDeps: seq<(string, string)> := [];
    for i := 0 to |tasks|
      invariant unknown == [] <==>
        forall j, dep :: 0 <= j < i && dep in tasks[j].dependsOn ==> IsTask(tasks, dep)
      invariant unknown == [] ==> (blockedDeps == [] <==>
        forall j, dep :: 0 <= j < i && dep in tasks[j].dependsOn ==> !IsHardBlocked(tasks, dep))
    {
      var task := tasks[i];
      for d := 0 to |task.dependsOn|
        invariant unknown == [] <==>
          && (forall j, dep :: 0 <= j < i && dep in tasks[j].dependsOn ==> IsTask(tasks, dep))
          && (forall k :: 0 <= k < d ==> IsTask(tasks, task.dependsOn[k]))
        invariant unknown == [] ==> (blockedDeps == [] <==>
          && (forall j, dep :: 0 <= j < i && dep in tasks[j].dependsOn ==> !IsHardBlocked(tasks, dep))
          && (forall k :: 0 <= k < d ==> !IsHardBlocked(tasks, task.dependsOn[k])))
      {
        var dependency := task.dependsOn[d];
        if dependency !in known {
          unknown := unknown + [(task.taskId, dependency)];
        } else if dependency in hardBlocked {
          blockedDeps := blockedDeps + [(task.taskId, dependency)];
        }
      }
    }

    if unknown != [] {
      return FailedCheck(DependenciesSound, DependencyUnknown);
    }
    var cycle := FindCycle(tasks);
    if cycle != [] {
      return FailedCheck(DependenciesSound, DependencyCycle);
    }
    if blockedDeps != [] {
      return FailedCheck(DependenciesSound, DependencyBlocked);
    }
    return PassedCheck(DependenciesSound);
  }

  /** `order` runs every task of the plan once, each after all the tasks it depends on. */
  ghost predicate RunsInOrder(tasks: seq<TaskOutcome>, order: seq<TaskOutcome>) {
    && multiset(order) == multiset(tasks)
    && forall i, dep :: 0 <= i < |order| && dep in order[i].dependsOn ==>
         exists j :: 0 <= j < i && order[j].taskId == dep
  }

  /** No chain of dependencies, however long, leads from a task to a hard-blocked one. */
  ghost predicate NoChainToABlock(tasks: seq<TaskOutcome>) {
    forall walk :: |walk| >= 2 && IsWalk(EdgesOf(tasks), walk) ==> !IsHardBlocked(tasks, walk[|walk| - 1])
  }

  lemma {:induction false} DistinctMultiplicity<T>(items: seq<T>)
    requires NoRepeats(items)
    ensures forall x :: multiset(items)[x] == if x in items then 1 else 0
  {
    if items != [] {
      var front := items[..|items| - 1];
      DistinctMultiplicity(front);
      assert items == front + [items[|items| - 1]];
    }
  }

  lemma SameElementsSameMultiset<T>(a: seq<T>, b: seq<T>)
    requires NoRepeats(a) && NoRepeats(b) && forall x :: x in a <==> x in b
    ensures multiset(a) == multiset(b)
  {
    DistinctMultiplicity(a);
    DistinctMultiplicity(b);
    assert forall x :: multiset(a)[x] == multiset(b)[x];
  }

  ghost function TaskWith(tasks: seq<TaskOutcome>, id: string): (t: TaskOutcome)
    requires IsTask(tasks, id)
    ensures t in tasks && t.taskId == id
  {
    var t :| t in tasks && t.taskId == id;
    t
  }

  lemma ScheduleRunsTheTasks(tasks: seq<TaskOutcome>, ids: seq<string>) returns (order: seq<TaskOutcome>)
    requires DistinctIds(tasks) && DependenciesKnown(tasks) && Schedule(EdgesOf(tasks), ids)
    ensures RunsInOrder(tasks, order)
  {
    EdgesOfKeys(tasks);
    EdgesOfDistinct(tasks);
    var edges := EdgesOf(tasks);
    forall id | id in ids ensures IsTask(tasks, id) {
      if id !in edges {
        var u, v :| u in edges && v in edges[u] && v == id;
        var t :| t in tasks && t.taskId == u;
        assert id in t.dependsOn;
      }
    }
    order := seq(|ids|, i requires 0 <= i < |ids| => assert ids[i] in ids; TaskWith(tasks, ids[i]));
    forall t | t in tasks ensures t in order {
      var i :| 0 <= i < |ids| && ids[i] == t.taskId;
      assert order[i] == t;
    }
    assert NoRepeats(order) && NoRepeats(tasks);
    SameElementsSameMultiset(order, tasks);
    forall i, dep | 0 <= i < |order| && dep in order[i].dependsOn
      ensures exists j :: 0 <= j < i && order[j].taskId == dep
    {
      assert dep in Successors(edges, ids[i]);
      var j :| 0 <= j < i && ids[..i][j] == dep;
      assert order[j].taskId == dep;
    }
  }

  /** A running order is the tasks themselves, rearranged: same members, each once. */
  lemma RunningOrderRearranges(tasks: seq<TaskOutcome>, order: seq<TaskOutcome>)
    requires DistinctIds(tasks) && RunsInOrder(tasks, order)
    ensures DistinctIds(order)
    ensures forall t :: t in order <==> t in tasks
  {
    SameMembers(order, tasks);
    assert NoRepeats(tasks);
    DistinctMultiplicity(tasks);
    OccursOnce(order);
    forall i, j | 0 <= i < j < |order| ensures order[i].taskId != order[j].taskId {
      assert order[i] in tasks && order[j] in tasks && order[i] != order[j];
    }
  }

  lemma RunningOrderIsASchedule(tasks: seq<TaskOutcome>, order: seq<TaskOutcome>)
    requires DistinctIds(tasks) && RunsInOrder(tasks, order)
    ensures DependenciesKnown(tasks) && Schedulable(EdgesOf(tasks))
  {
    RunningOrderRearranges(tasks, order);
    forall t, dep | t in tasks && dep in t.dependsOn ensures IsTask(tasks, dep) {
      var i :| 0 <= i < |order| && order[i] == t;
      var j :| 0 <= j < i && order[j].taskId == dep;
      assert order[j] in tasks;
    }
    var ids := seq(|order|, i requires 0 <= i < |order| => order[i].taskId);
    IdsFormASchedule(tasks, order, ids);
  }

  lemma IdsFormASchedule(tasks: seq<TaskOutcome>, order: seq<TaskOutcome>, ids: seq<string>)
    requires DistinctIds(tasks) && RunsInOrder(tasks, order)
    requires DistinctIds(order) && forall t :: t in order <==> t in tasks
    requires |ids| == |order| && forall i :: 0 <= i < |ids| ==> ids[i] == order[i].taskId
    ensures Schedule(EdgesOf(tasks), ids)
  {
    EdgesOfKeys(tasks);
    EdgesOfDistinct(tasks);
    forall i, dep | 0 <= i < |ids| && dep in Successors(EdgesOf(tasks), ids[i]) ensures dep in ids[..i] {
      assert order[i] in tasks;
      var j :| 0 <= j < i && order[j].taskId == dep;
      assert ids[..i][j] == dep;
    }
    forall id | id in EdgesOf(tasks) ensures id in ids {
      var t :| t in tasks && t.taskId == id;
      var i :| 0 <= i < |order| && order[i] == t;
      assert ids[i] == id;
    }
    forall id | id in ids ensures id in Nodes(EdgesOf(tasks)) {
      var i :| 0 <= i < |ids| && ids[i] == id;
      assert order[i] in tasks;
    }
  }

  lemma {:induction false} OccursOnce<T>(items: seq<T>)
    requires forall x :: multiset(items)[x] <= 1
    ensures NoRepeats(items)
  {
    forall i, j | 0 <= i < j < |items| ensures items[i] != items[j] {
      assert items == items[..j] + [items[j]] + items[j + 1..];
      assert items[..j][i] in multiset(items[..j]);
      assert multiset(items)[items[j]] == multiset(items[..j])[items[j]] + 1 + multiset(items[j + 1..])[items[j]];
    }
  }

  /** A chain whose every dependency is unblocked cannot end at a block, and conversely. */
  lemma ChainsFollowDirectDependencies(tasks: seq<TaskOutcome>)
    requires DistinctIds(tasks)
    ensures DependsOnNoBlock(tasks) <==> NoChainToABlock(tasks)
  {
    EdgesOfKeys(tasks);
    EdgesOfDistinct(tasks);
    var edges := EdgesOf(tasks);
    if DependsOnNoBlock(tasks) {
      forall walk | |walk| >= 2 && IsWalk(edges, walk) ensures !IsHardBlocked(tasks, walk[|walk| - 1]) {
        var u, v := walk[|walk| - 2], walk[|walk| - 1];
        assert walk[|walk| - 2 + 1] in Successors(edges, u);
        var t :| t in tasks && t.taskId == u;
        assert v in t.dependsOn;
      }
    } else {
      var t, dep :| t in tasks && dep in t.dependsOn && IsHardBlocked(tasks, dep);
      assert IsWalk(edges, [t.taskId, dep]);
      assert [t.taskId, dep][|[t.taskId, dep]| - 1] == dep;
    }
  }

  /** With distinct ids, the check passes exactly for the plans that can be run in some order
      without ever waiting, at any distance, for a task no approval can release. */
  lemma DependenciesPassExactly(tasks: seq<TaskOutcome>)
    requires DistinctIds(tasks)
    ensures DependenciesCode(tasks) == Ok <==>
              (exists order :: RunsInOrder(tasks, order)) && NoChainToABlock(tasks)
  {
    ChainsFollowDirectDependencies(tasks);
    if DependenciesKnown(tasks) && Schedulable(EdgesOf(tasks)) {
      var ids :| Schedule(EdgesOf(tasks), ids);
      var order := ScheduleRunsTheTasks(tasks, ids);
    }
    if order :| RunsInOrder(tasks, order) {
      RunningOrderIsASchedule(tasks, order);
    }
  }

  // Nothing rejects repeated ids, and the dict forgets all but the last list of an id.

  /** The same tasks with other dependency lists. */
  function WithDependencies(tasks: seq<TaskOutcome>, lists: seq<seq<string>>): (r: seq<TaskOutcome>)
    requires |lists| == |tasks|
    ensures |r| == |tasks| && forall i :: 0 <= i < |r| ==> r[i] == tasks[i].(dependsOn := lists[i])
  {
    seq(|tasks|, i requires 0 <= i < |tasks| => tasks[i].(dependsOn := lists[i]))
  }

  /** Some task of the one id lists the other, whether or not the dict keeps its list. */
  ghost predicate Declares(tasks: seq<TaskOutcome>, id: string, dep: string) {
    exists t :: t in tasks && t.taskId == id && dep in t.dependsOn
  }

  /** A closed walk over all declared dependencies. */
  ghost predicate DeclaredCycle(tasks: seq<TaskOutcome>, walk: seq<string>) {
    |walk| >= 2 && walk[0] == walk[|walk| - 1] && forall i :: 0 <= i < |walk| - 1 ==> Declares(tasks, walk[i], walk[i + 1])
  }

  /** If the check passes, the declared dependencies have no cycle. */
  ghost predicate HidesNoCycle(tasks: seq<TaskOutcome>) {
    DependenciesCode(tasks) == Ok ==> forall walk :: !DeclaredCycle(tasks, walk)
  }

  /** Whatever the tasks depend on, the check hides no cycle. */
  ghost predicate Trustworthy(tasks: seq<TaskOutcome>) {
    forall lists :: |lists| == |tasks| ==> HidesNoCycle(WithDependencies(tasks, lists))
  }

  /** An id is repeated only where a task of that id is hard-blocked, so that nothing may depend on it. */
  ghost predicate RepeatsAreBlocked(tasks: seq<TaskOutcome>) {
    forall i, j :: 0 <= i < j < |tasks| && tasks[i].taskId == tasks[j].taskId ==> IsHardBlocked(tasks, tasks[i].taskId)
  }

  /** Exactly when a pass can be trusted, whatever the dependencies are: when every repeated id is
      hard-blocked; so, where no task is, exactly when the ids are distinct. */
  lemma TrustedExactly(tasks: seq<TaskOutcome>)
    ensures Trustworthy(tasks) <==> RepeatsAreBlocked(tasks)
    ensures (forall t :: t in tasks ==> !t.HardBlocked()) ==> (Trustworthy(tasks) <==> DistinctIds(tasks))
  {
    if RepeatsAreBlocked(tasks) {
      forall lists | |lists| == |tasks| ensures HidesNoCycle(WithDependencies(tasks, lists)) {
        var given := WithDependencies(tasks, lists);
        SameBlocks(tasks, lists);
        forall walk | DependenciesCode(given) == Ok && DeclaredCycle(given, walk) ensures false {
          PassedCycleIsKept(given, walk);
          ScheduleForbidsCycles(EdgesOf(given));
        }
      }
    } else {
      var i, j :| 0 <= i < j < |tasks| && tasks[i].taskId == tasks[j].taskId && !IsHardBlocked(tasks, tasks[i].taskId);
      var lists := HidingLists(tasks, i, j);
      assert !HidesNoCycle(WithDependencies(tasks, lists));
    }
    BlocksAside(tasks);
  }

  lemma BlocksAside(tasks: seq<TaskOutcome>)
    ensures (forall t :: t in tasks ==> !t.HardBlocked()) ==> (RepeatsAreBlocked(tasks) <==> DistinctIds(tasks))
  {
  }

  lemma SameBlocks(tasks: seq<TaskOutcome>, lists: seq<seq<string>>)
    requires |lists| == |tasks|
    ensures var given := WithDependencies(tasks, lists);
            && (forall id :: IsHardBlocked(given, id) <==> IsHardBlocked(tasks, id))
            && (RepeatsAreBlocked(tasks) ==> RepeatsAreBlocked(given))
  {
    var given := WithDependencies(tasks, lists);
    forall i | 0 <= i < |tasks| ensures given[i] in given && tasks[i] in tasks && given[i].HardBlocked() == tasks[i].HardBlocked() {
    }
    forall id ensures IsHardBlocked(given, id) <==> IsHardBlocked(tasks, id) {
      if t :| t in given && t.taskId == id && t.HardBlocked() {
        var i :| 0 <= i < |given| && given[i] == t;
        assert tasks[i].HardBlocked();
      }
      if t :| t in tasks && t.taskId == id && t.HardBlocked() {
        var i :| 0 <= i < |tasks| && tasks[i] == t;
        assert given[i].HardBlocked();
      }
    }
  }

  /** In a passing plan nothing depends on a hard-blocked id, so a declared step from an id that
      something depends on is one the dict kept. */
  lemma DeclaredStepIsKept(tasks: seq<TaskOutcome>, id: string, dep: string)
    requires RepeatsAreBlocked(tasks) && Declares(tasks, id, dep) && !IsHardBlocked(tasks, id)
    ensures dep in Successors(EdgesOf(tasks), id)
  {
    var t :| t in tasks && t.taskId == id && dep in t.dependsOn;
    var k :| 0 <= k < |tasks| && tasks[k] == t;
    LastListIsKept(tasks, k);
  }

  lemma PassedCycleIsKept(tasks: seq<TaskOutcome>, walk: seq<string>)
    requires RepeatsAreBlocked(tasks) && DependenciesCode(tasks) == Ok && DeclaredCycle(tasks, walk)
    ensures ClosedWalk(EdgesOf(tasks), walk)
  {
    forall k | 1 <= k < |walk| ensures !IsHardBlocked(tasks, walk[k]) {
      assert Declares(tasks, walk[k - 1], walk[k - 1 + 1]);
    }
    forall i | 0 <= i < |walk| - 1 ensures walk[i + 1] in Successors(EdgesOf(tasks), walk[i]) {
      DeclaredStepIsKept(tasks, walk[i], walk[i + 1]);
    }
  }

  /** A repeated id without a hard block: let its earlier task depend on itself and nothing else on
      anything. The check passes. */
  lemma HidingLists(tasks: seq<TaskOutcome>, i: nat, j: nat) returns (lists: seq<seq<string>>)
    requires i < j < |tasks| && tasks[i].taskId == tasks[j].taskId && !IsHardBlocked(tasks, tasks[i].taskId)
    ensures |lists| == |tasks| && forall k :: 0 <= k < |tasks| ==> lists[k] == if k == i then [tasks[i].taskId] else []
    ensures DependenciesCode(WithDependencies(tasks, lists)) == Ok
    ensures DeclaredCycle(WithDependencies(tasks, lists), [tasks[i].taskId, tasks[i].taskId])
  {
    var id := tasks[i].taskId;
    lists := seq(|tasks|, k => if k == i then [id] else []);
    var given := WithDependencies(tasks, lists);
    SameBlocks(tasks, lists);
    NoListIsKept(given, i, j);
    NothingKeptIsSchedulable(given);
    OnlyOneList(given, i, id);
  }

  lemma OnlyOneList(tasks: seq<TaskOutcome>, i: nat, id: string)
    requires i < |tasks| && tasks[i].taskId == id && !IsHardBlocked(tasks, id)
    requires forall k :: 0 <= k < |tasks| ==> tasks[k].dependsOn == if k == i then [id] else []
    ensures DependenciesKnown(tasks) && DependsOnNoBlock(tasks) && DeclaredCycle(tasks, [id, id])
  {
    assert tasks[i] in tasks && id in tasks[i].dependsOn;
    forall t, dep | t in tasks && dep in t.dependsOn ensures dep == id {
      var k :| 0 <= k < |tasks| && tasks[k] == t;
    }
    assert IsTask(tasks, id) && Declares(tasks, id, id);
  }

  lemma NoListIsKept(tasks: seq<TaskOutcome>, i: nat, j: nat)
    requires i < j < |tasks| && tasks[i].taskId == tasks[j].taskId
    requires forall k :: 0 <= k < |tasks| && k != i ==> tasks[k].dependsOn == []
    ensures forall id :: Successors(EdgesOf(tasks), id) == []
  {
    EdgesOfKeys(tasks);
    forall id ensures Successors(EdgesOf(tasks), id) == [] {
      if id in EdgesOf(tasks) {
        var t :| t in tasks && t.taskId == id;
        var first :| 0 <= first < |tasks| && tasks[first] == t;
        var k := LastWith(tasks, first);
        LastListIsKept(tasks, k);
      }
    }
  }

  lemma NothingKeptIsSchedulable(tasks: seq<TaskOutcome>)
    requires forall id :: Successors(EdgesOf(tasks), id) == []
    ensures Schedulable(EdgesOf(tasks))
  {
    EdgesOfKeys(tasks);
    var ids := seq(|tasks|, k requires 0 <= k < |tasks| => tasks[k].taskId);
    var order := FirstOccurrences(ids);
    FirstOccurrencesIsASet(ids);
    forall id | id in EdgesOf(tasks) ensures id in order {
      var t :| t in tasks && t.taskId == id;
      var k :| 0 <= k < |tasks| && tasks[k] == t;
      assert ids[k] == id;
    }
    forall id | id in order ensures id in Nodes(EdgesOf(tasks)) {
      var k :| 0 <= k < |ids| && ids[k] == id;
      assert tasks[k] in tasks;
    }
    assert Schedule(EdgesOf(tasks), order);
  }

  /** Concretely: a task that depends on itself passes when a later task repeats its id. */
  lemma RepeatedIdHidesACycle(t: TaskOutcome)
    requires t.dependsOn == [t.taskId] && !t.HardBlocked()
    ensures DependenciesCode([t]) == DependencyCycle
    ensures DependenciesCode([t, t.(dependsOn := [])]) == Ok
  {
    var once, twice := [t], [t, t.(dependsOn := [])];
    assert t in once && DependenciesKnown(once);
    LastListIsKept(once, 0);
    assert ClosedWalk(EdgesOf(once), [t.taskId, t.taskId]);
    if Schedulable(EdgesOf(once)) { ScheduleForbidsCycles(EdgesOf(once)); }
    var lists := HidingLists(twice, 0, 1);
    assert WithDependencies(twice, lists) == twice;
  }

  // ---------------------------------------------------------------- 3. consistency

  /** Every (action, target) pair the plan commits to, in plan order. */
  function Commitments(tasks: seq<TaskOutcome>): seq<(ActionName, string)> {
    if tasks == [] then []
    else Commitments(tasks[..|tasks| - 1]) + TaskCommitments(tasks[|tasks| - 1])
  }

  function TaskCommitments(task: TaskOutcome): (pairs: seq<(ActionName, string)>)
    ensures |pairs| == |task.targetRefs|
    ensures forall k :: 0 <= k < |pairs| ==> pairs[k] == (task.actionType, task.targetRefs[k])
  {
    seq(|task.targetRefs|, k requires 0 <= k < |task.targetRefs| => (task.actionType, task.targetRefs[k]))
  }

  /** Some configured pair of actions both target one entity. */
  ghost predicate ExclusiveClash(tasks: seq<TaskOutcome>, config: PlanConfig) {
    exists ref, pair ::
      pair in config.ExclusivePairs() && ref in TargetsOf(tasks) && AllTarget(tasks, pair, ref)
  }

  ghost predicate AllTarget(tasks: seq<TaskOutcome>, actions: set<ActionName>, ref: string) {
    forall action :: action in actions ==> (action, ref) in Commitments(tasks)
  }

  ghost function TargetsOf(tasks: seq<TaskOutcome>): set<string> {
    set c | c in Commitments(tasks) :: c.1
  }

  ghost function ConsistencyCode(tasks: seq<TaskOutcome>, config: PlanConfig): PlanReasonCode {
    if !NoRepeats(Commitments(tasks)) then DuplicateTask
    else if ExclusiveClash(tasks, config) then MutuallyExclusiveTasks
    else Ok
  }

  lemma RepeatsExtend<T>(items: seq<T>, x: T)
    ensures NoRepeats(items + [x]) <==> NoRepeats(items) && x !in items
  {
    var longer := items + [x];
    if NoRepeats(longer) {
      forall i, j | 0 <= i < j < |items| ensures items[i] != items[j] {
        assert longer[i] != longer[j];
      }
      forall i | 0 <= i < |items| ensures items[i] != x {
        assert longer[i] != longer[|items|];
      }
    }
  }

  /** plan_consistent */
  method CheckConsistency(tasks: seq<TaskOutcome>, config: PlanConfig) returns (r: PlanCheckResult)
    ensures r == ByCode(PlanConsistent, ConsistencyCode(tasks, config))
  {
    var seen: map<(ActionName, string), string> := map[];
    var duplicates: seq<(ActionName, string)> := [];
    for i := 0 to |tasks|
      invariant seen.Keys == set c | c in Commitments(tasks[..i])
      invariant duplicates == [] <==> NoRepeats(Commitments(tasks[..i]))
    {
      var task := tasks[i];
      assert tasks[..i + 1][..i] == tasks[..i];
      ghost var base := Commitments(tasks[..i]);
      ghost var own := TaskCommitments(task);
      assert base + own[..0] == base;
      for k := 0 to |task.targetRefs|
        invariant seen.Keys == set c | c in base + own[..k]
        invariant duplicates == [] <==> NoRepeats(base + own[..k])
      {
        var key := (task.actionType, task.targetRefs[k]);
        assert base + own[..k + 1] == (base + own[..k]) + [key];
        RepeatsExtend(base + own[..k], key);
        if key in seen {
          duplicates := duplicates + [key];
        } else {
          seen := seen[key := task.taskId];
        }
      }
      assert own[..|own|] == own;
    }
    assert tasks[..|tasks|] == tasks;
    if duplicates != [] {
      return FailedCheck(PlanConsistent, DuplicateTask);
    }

    var exclusive := config.ExclusivePairs();
    if exclusive != {} {
      var byRef := ActionsByRef(tasks);
      var clash := exists ref, pair :: ref in byRef && pair in exclusive && pair <= byRef[ref];
      assert clash <==> ExclusiveClash(tasks, config) by {
        if clash {
          var ref, pair :| ref in byRef && pair in exclusive && pair <= byRef[ref];
          assert ref in TargetsOf(tasks) && AllTarget(tasks, pair, ref);
        }
        if ExclusiveClash(tasks, config) {
          var ref, pair :| pair in exclusive && ref in TargetsOf(tasks) && AllTarget(tasks, pair, ref);
          assert pair <= byRef[ref];
        }
      }
      if clash {
        return FailedCheck(PlanConsistent, MutuallyExclusiveTasks);
      }
    }
    return PassedCheck(PlanConsistent);
  }

  /** The `by_ref` index: which action types target each entity. */
  method ActionsByRef(tasks: seq<TaskOutcome>) returns (byRef: map<string, set<ActionName>>)
    ensures byRef.Keys == TargetsOf(tasks)
    ensures forall ref, action :: ref in byRef ==> (action in byRef[ref] <==> (action, ref) in Commitments(tasks))
  {
    byRef := map[];
    for i := 0 to |tasks|
      invariant Indexes(byRef, Commitments(tasks[..i]))
    {
      var task := tasks[i];
      assert tasks[..i + 1][..i] == tasks[..i];
      ghost var base := Commitments(tasks[..i]);
      ghost var own := TaskCommitments(task);
      assert base + own[..0] == base;
      for k := 0 to |task.targetRefs|
        invariant Indexes(byRef, base + own[..k])
      {
        var ref := task.targetRefs[k];
        assert base + own[..k + 1] == (base + own[..k]) + [(task.actionType, ref)];
        IndexExtends(byRef, base + own[..k], task.actionType, ref);
        var held := if ref in byRef then byRef[ref] else {};
        byRef := byRef[ref := held + {task.actionType}];
      }
      assert own[..|own|] == own;
    }
    assert tasks[..|tasks|] == tasks;
  }

  ghost predicate Indexes(byRef: map<string, set<ActionName>>, commitments: seq<(ActionName, string)>) {
    && (forall ref, action :: ref in byRef && action in byRef[ref] ==> (action, ref) in commitments)
    && (forall c :: c in commitments ==> c.1 in byRef && c.0 in byRef[c.1])
    && (forall ref :: ref in byRef ==> byRef[ref] != {})
  }

  lemma IndexExtends(
    byRef: map<string, set<ActionName>>, commitments: seq<(ActionName, string)>, action: ActionName, ref: string)
    requires Indexes(byRef, commitments)
    ensures Indexes(byRef[ref := (if ref in byRef then byRef[ref] else {}) + {action}], commitments + [(action, ref)])
  {
  }

  // ---------------------------------------------------------------- 4. coverage

  function CoverageCode(tasks: seq<TaskOutcome>, coverage: Coverage): PlanReasonCode {
    if !coverage.declared then CoverageNotDeclared
    else
      var addressed := set t, ref | t in tasks && ref in t.targetRefs :: ref;
      if exists ref :: ref in coverage.impactedRefs && ref !in addressed && ref !in coverage.deferred
      then CoverageIncomplete
      else if exists ref :: ref in coverage.deferred && Blank(coverage.deferred[ref]) then CoverageIncomplete
      else Ok
  }

  // ---------------------------------------------------------------- 5. exposure

  function HighRiskCount(tasks: seq<TaskOutcome>): nat {
    if tasks == [] then 0
    else HighRiskCount(tasks[..|tasks| - 1]) + if tasks[|tasks| - 1].riskTier == High then 1 else 0
  }

  predicate Over(figure: Option<int>, limit: int) { figure.Some? && figure.value > limit }

  function ExposureCode(tasks: seq<TaskOutcome>, exposure: Exposure, config: PlanConfig): PlanReasonCode {
    var limits := config.limits;
    if exposure.unresolvedCohorts != [] then ExposureUnknown
    else if |tasks| > limits.maxTasks then PlanTooLarge
    else if exposure.totalInr.None? || exposure.passengers.None? || exposure.rooms.None? ||
            exposure.externalEffects.None? then ExposureUnknown
    else if Over(exposure.totalInr, limits.maxTotalInr) || Over(exposure.passengers, limits.maxPassengers) ||
            Over(exposure.rooms, limits.maxRooms) || Over(exposure.externalEffects, limits.maxExternalEffects) ||
            HighRiskCount(tasks) > limits.maxHighRiskActions then ExposureLimitBreached
    else Ok
  }

  // ---------------------------------------------------------------- 6. plan risk

  datatype EscalationReason = ExposureShare | PassengerShare | HighRiskActions | ExternalEffects | NotEstablished

  predicate AtLeastShare(figure: Option<int>, limit: int, fraction: real) {
    figure.Some? && figure.value as real >= limit as real * fraction
  }

  /** The aggregate alone makes the plan high risk, whatever its parts are. */
  predicate Escalates(tasks: seq<TaskOutcome>, exposure: Exposure, config: PlanConfig) {
    || AtLeastShare(exposure.totalInr, config.limits.maxTotalInr, config.escalation.exposureFraction)
    || AtLeastShare(exposure.passengers, config.limits.maxPassengers, config.escalation.passengersFraction)
    || HighRiskCount(tasks) >= config.escalation.highRiskActionCount
    || (if exposure.externalEffects.Some? then exposure.externalEffects.value else 0)
         >= config.escalation.externalEffectCount
    || exposure.totalInr.None?
    || exposure.unresolvedCohorts != []
  }

  function PlanTier(tasks: seq<TaskOutcome>, exposure: Exposure, config: PlanConfig): RiskTier {
    if tasks == [] || Escalates(tasks, exposure, config) then High
    else if exists t :: t in tasks && t.riskTier == High then High
    else if exists t :: t in tasks && t.riskTier == Medium then Medium
    else Low
  }

  function RiskResult(tasks: seq<TaskOutcome>, exposure: Exposure, config: PlanConfig): PlanCheckResult {
    var tier := PlanTier(tasks, exposure, config);
    Report(PlanRisk, Passed, if tier == High && tasks != [] then HumanApprovalRequired else Ok, Some(tier))
  }

  function TierRank(tier: RiskTier): nat {
    match tier
    case Low => 0
    case Medium => 1
    case High => 2
  }

  /** The aggregate is never a lesser risk than any of its tasks, nor than the plan without its last
      task: ten small risks never read as one. */
  lemma AggregateRiskDominates(tasks: seq<TaskOutcome>, last: TaskOutcome, exposure: Exposure, config: PlanConfig)
    ensures forall t :: t in tasks ==> TierRank(t.riskTier) <= TierRank(PlanTier(tasks, exposure, config))
    ensures tasks != [] ==>
              TierRank(PlanTier(tasks, exposure, config)) <= TierRank(PlanTier(tasks + [last], exposure, config))
  {
    assert (tasks + [last])[..|tasks|] == tasks;
    assert HighRiskCount(tasks) <= HighRiskCount(tasks + [last]);
    assert forall t :: t in tasks ==> t in tasks + [last];
  }

  /** plan_risk */
  method ClassifyPlan(tasks: seq<TaskOutcome>, exposure: Exposure, config: PlanConfig) returns (r: PlanCheckResult)
    ensures r == RiskResult(tasks, exposure, config)
  {
    if tasks == [] {
      return Report(PlanRisk, Passed, Ok, Some(High));
    }
    var tier := Low;
    if exists t :: t in tasks && t.riskTier == High {
      tier := High;
    } else if exists t :: t in tasks && t.riskTier == Medium {
      tier := Medium;
    }

    var externalEffects := if exposure.externalEffects.Some? then exposure.externalEffects.value else 0;
    var highRiskActions := HighRiskCount(tasks);
    var reasons: seq<EscalationReason> := [];
    if AtLeastShare(exposure.totalInr, config.limits.maxTotalInr, config.escalation.exposureFraction) {
      reasons := reasons + [ExposureShare];
    }
    if AtLeastShare(exposure.passengers, config.limits.maxPassengers, config.escalation.passengersFraction) {
      reasons := reasons + [PassengerShare];
    }
    if highRiskActions >= config.escalation.highRiskActionCount {
      reasons := reasons + [HighRiskActions];
    }
    if externalEffects >= config.escalation.externalEffectCount {
      reasons := reasons + [ExternalEffects];
    }
    if exposure.totalInr.None? || exposure.unresolvedCohorts != [] {
      reasons := reasons + [NotEstablished];
    }

    if reasons != [] || tier == High {
      return Report(PlanRisk, Passed, HumanApprovalRequired, Some(High));
    }
    return Report(PlanRisk, Passed, Ok, Some(tier));
  }
}
