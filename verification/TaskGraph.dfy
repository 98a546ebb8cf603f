/** The dependency graph of a plan and the depth-first search that looks for a cycle in it. */
module TaskGraph {
  import opened Prelude
  import opened PlanContract

  type Edges = map<string, seq<string>>

  /** edges.get(node, []) */
  function Successors(edges: Edges, node: string): seq<string> {
    if node in edges then edges[node] else []
  }

  /** The dict built from the tasks in order: a repeated task id keeps its last dependency list. */
  function EdgesOf(tasks: seq<TaskOutcome>): Edges {
    if tasks == [] then map[]
    else
      var last := tasks[|tasks| - 1];
      EdgesOf(tasks[..|tasks| - 1])[last.taskId := last.dependsOn]
  }

  ghost predicate DistinctIds(tasks: seq<TaskOutcome>) {
    forall i, j :: 0 <= i < j < |tasks| ==> tasks[i].taskId != tasks[j].taskId
  }

  lemma {:induction false} EdgesOfKeys(tasks: seq<TaskOutcome>)
    ensures forall id :: id in EdgesOf(tasks) <==> exists t :: t in tasks && t.taskId == id
  {
    if tasks != [] {
      var front := tasks[..|tasks| - 1];
      EdgesOfKeys(front);
      assert tasks == front + [tasks[|tasks| - 1]];
    }
  }

  /** The list of the last task with an id is the one the dict keeps. */
  lemma {:induction false} LastListIsKept(tasks: seq<TaskOutcome>, k: nat)
    requires k < |tasks| && forall j :: k < j < |tasks| ==> tasks[j].taskId != tasks[k].taskId
    ensures tasks[k].taskId in EdgesOf(tasks) && EdgesOf(tasks)[tasks[k].taskId] == tasks[k].dependsOn
  {
    if k < |tasks| - 1 {
      LastListIsKept(tasks[..|tasks| - 1], k);
    }
  }

  lemma {:induction false} LastWith(tasks: seq<TaskOutcome>, i: nat) returns (k: nat)
    requires i < |tasks|
    ensures i <= k < |tasks| && tasks[k].taskId == tasks[i].taskId
    ensures forall j :: k < j < |tasks| ==> tasks[j].taskId != tasks[k].taskId
    decreases |tasks| - i
  {
    k := i;
    if j :| i < j < |tasks| && tasks[j].taskId == tasks[i].taskId {
      k := LastWith(tasks, j);
    }
  }

  /** With distinct ids the dict loses nothing: every task keeps its own dependency list. */
  lemma {:induction false} EdgesOfDistinct(tasks: seq<TaskOutcome>)
    requires DistinctIds(tasks)
    ensures forall t :: t in tasks ==> Successors(EdgesOf(tasks), t.taskId) == t.dependsOn
  {
    if tasks != [] {
      var front := tasks[..|tasks| - 1];
      EdgesOfDistinct(front);
      EdgesOfKeys(front);
      assert tasks == front + [tasks[|tasks| - 1]];
    }
  }

  ghost predicate IsWalk(edges: Edges, walk: seq<string>) {
    forall i :: 0 <= i < |walk| - 1 ==> walk[i + 1] in Successors(edges, walk[i])
  }

  /** A walk along at least one edge that ends where it started. */
  ghost predicate ClosedWalk(edges: Edges, walk: seq<string>) {
    |walk| >= 2 && walk[0] == walk[|walk| - 1] && IsWalk(edges, walk)
  }

  ghost predicate Acyclic(edges: Edges) {
    forall walk :: !ClosedWalk(edges, walk)
  }

  /** A listing in which every dependency of a listed node is listed before it. */
  ghost predicate DependencyOrder(edges: Edges, order: seq<string>) {
    && NoRepeats(order)
    && forall i, dep :: 0 <= i < |order| && dep in Successors(edges, order[i]) ==> dep in order[..i]
  }

  ghost function Nodes(edges: Edges): set<string> {
    edges.Keys + set u, v | u in edges && v in edges[u] :: v
  }

  /** A dependency order of the graph that reaches every task id and nothing outside the graph. */
  ghost predicate Schedule(edges: Edges, order: seq<string>) {
    && DependencyOrder(edges, order)
    && (forall id :: id in edges ==> id in order)
    && (forall id :: id in order ==> id in Nodes(edges))
  }

  ghost predicate Schedulable(edges: Edges) {
    exists order :: Schedule(edges, order)
  }

  /** Along a walk the position in a dependency order strictly falls. */
  lemma {:induction false} WalkDescends(edges: Edges, order: seq<string>, walk: seq<string>, a: nat)
    requires DependencyOrder(edges, order)
    requires a < |order| && |walk| > 0 && walk[0] == order[a] && IsWalk(edges, walk)
    ensures exists b: nat :: b <= a && b < |order| && order[b] == walk[|walk| - 1] && (|walk| >= 2 ==> b < a)
    decreases |walk|
  {
    if |walk| > 1 {
      assert walk[1] in order[..a];
      var b: nat :| b < a && order[b] == walk[1];
      assert forall i :: 0 <= i < |walk[1..]| - 1 ==> walk[1..][i] == walk[i + 1];
      WalkDescends(edges, order, walk[1..], b);
    }
  }

  lemma ScheduleForbidsCycles(edges: Edges)
    requires Schedulable(edges)
    ensures Acyclic(edges)
  {
    var order :| Schedule(edges, order);
    forall walk | ClosedWalk(edges, walk) ensures false {
      assert walk[1] in Successors(edges, walk[0]);
      var a: nat :| a < |order| && order[a] == walk[0];
      WalkDescends(edges, order, walk, a);
      assert false;
    }
  }

  /** path.index(node): the first position of a node that is on the path. */
  function IndexOf(path: seq<string>, node: string): (k: nat)
    requires node in path
    ensures k < |path| && path[k] == node && node !in path[..k]
  {
    if path[0] == node then 0 else 1 + IndexOf(path[1..], node)
  }

  lemma SuccessorIsNode(edges: Edges, node: string, dep: string)
    requires dep in Successors(edges, node)
    ensures dep in Nodes(edges)
  {
  }

  lemma OrderExtends(edges: Edges, order: seq<string>, node: string)
    requires DependencyOrder(edges, order) && node !in order
    requires forall dep :: dep in Successors(edges, node) ==> dep in order
    ensures DependencyOrder(edges, order + [node])
  {
    var longer := order + [node];
    forall i, dep | 0 <= i < |longer| && dep in Successors(edges, longer[i]) ensures dep in longer[..i] {
      assert longer[..i] == order[..i];
      assert order[..|order|] == order;
    }
  }

  /** A path whose end leads back to one of its nodes closes there. */
  lemma PathCloses(edges: Edges, path: seq<string>, node: string, start: nat)
    requires IsWalk(edges, path) && start < |path| && path[start] == node && node in Successors(edges, path[|path| - 1])
    ensures ClosedWalk(edges, path[start..] + [node])
  {
    var walk := path[start..] + [node];
    forall i | 0 <= i < |walk| - 1 ensures walk[i + 1] in Successors(edges, walk[i]) {
      assert walk[i] == path[start + i];
    }
  }

  lemma PathExtends(edges: Edges, path: seq<string>, node: string)
    requires IsWalk(edges, path) && NoRepeats(path) && node !in path
    requires path == [] || node in Successors(edges, path[|path| - 1])
    ensures IsWalk(edges, path + [node]) && NoRepeats(path + [node])
    ensures (set v | v in path + [node]) == (set v | v in path) + {node}
  {
  }

  /** The search with the state its inner `walk` shares: `visiting`, `done` and `path`. */
  class CycleSearch {
    const edges: Edges
    var visiting: set<string>
    var done: set<string>
    var path: seq<string>
    /** `done` in the order the nodes were finished. */
    ghost var finished: seq<string>

    ghost predicate Valid()
      reads this
    {
      && visiting == (set v | v in path)
      && NoRepeats(path)
      && IsWalk(edges, path)
      && visiting !! done
      && done == (set v | v in finished)
      && DependencyOrder(edges, finished)
      && (forall v :: v in finished ==> v in Nodes(edges))
    }

    constructor (edges: Edges)
      ensures Valid() && this.edges == edges && path == [] && finished == []
    {
      this.edges := edges;
      visiting, done, path, finished := {}, {}, [], [];
    }

    method Walk(node: string) returns (found: seq<string>)
      requires Valid() && node in Nodes(edges)
      requires path == [] || node in Successors(edges, path[|path| - 1])
      modifies this
      ensures found != [] ==> ClosedWalk(edges, found)
      ensures found == [] ==> Valid() && node in done && path == old(path) && visiting == old(visiting)
      ensures found == [] ==> old(finished) <= finished && old(done) <= done
      decreases Nodes(edges) - visiting - done
    {
      if node in done {
        return [];
      }
      if node in visiting {
        assert node in path;  // the fallback to 0 below is never taken
        var start := if node in path then IndexOf(path, node) else 0;
        PathCloses(edges, path, node, start);
        return path[start..] + [node];
      }

      PathExtends(edges, path, node);
      visiting := visiting + {node};
      path := path + [node];
      var dependencies := Successors(edges, node);
      for i := 0 to |dependencies|
        invariant Valid() && path == old(path) + [node]
        invariant old(finished) <= finished && old(done) <= done && visiting == old(visiting) + {node}
        invariant forall j :: 0 <= j < i ==> dependencies[j] in done
      {
        SuccessorIsNode(edges, node, dependencies[i]);
        assert node in Nodes(edges) - old(visiting) - old(done) && node in visiting;
        var f := Walk(dependencies[i]);
        if f != [] {
          return f;
        }
      }
      Finish(node);
      return [];
    }

    /** path.pop(); visiting.discard(node); done.add(node) */
    method Finish(node: string)
      requires Valid() && path != [] && path[|path| - 1] == node && node in Nodes(edges)
      requires forall dep :: dep in Successors(edges, node) ==> dep in done
      modifies this
      ensures Valid() && path == old(path[..|path| - 1]) && finished == old(finished) + [node]
    {
      assert node in visiting;
      OrderExtends(edges, finished, node);
      path := path[..|path| - 1];
      visiting := visiting - {node};
      done := done + {node};
      finished := finished + [node];
    }
  }

  /** _find_cycle */
  method FindCycle(tasks: seq<TaskOutcome>) returns (cycle: seq<string>)
    ensures cycle != [] ==> ClosedWalk(EdgesOf(tasks), cycle)
    ensures cycle == [] <==> Acyclic(EdgesOf(tasks))
    ensures cycle == [] <==> Schedulable(EdgesOf(tasks))
  {
    var edges := EdgesOf(tasks);
    EdgesOfKeys(tasks);
    var search := new CycleSearch(edges);
    for i := 0 to |tasks|
      invariant search.Valid() && search.edges == edges && search.path == []
      invariant forall t :: t in tasks[..i] ==> t.taskId in search.done
    {
      assert tasks[i] in tasks;
      cycle := search.Walk(tasks[i].taskId);
      if cycle != [] {
        if Schedulable(edges) { ScheduleForbidsCycles(edges); }
        return;
      }
    }
    assert Schedule(edges, search.finished);
    ScheduleForbidsCycles(edges);
    return [];
  }
}
