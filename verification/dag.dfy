/** The dependency graph of scheduler.rs: registration, readiness and the
    depth-first cycle check, stated against paths rather than the search. */
module Dag {
  import opened Sequences

  type TaskId = string

  /** Task id -> the task ids it depends on. Dependencies need not be registered. */
  type Graph = map<TaskId, seq<TaskId>>

  // ---- Paths -------------------------------------------------------------

  ghost predicate Edge(g: Graph, a: TaskId, b: TaskId) {
    a in g && b in g[a]
  }

  /** p follows dependency edges; every node but the last is registered. */
  ghost predicate IsPath(g: Graph, p: seq<TaskId>) {
    |p| >= 1 && forall i :: 0 <= i < |p| - 1 ==> Edge(g, p[i], p[i + 1])
  }

  /** A non-empty dependency path leads from a to b. */
  ghost predicate Reaches(g: Graph, a: TaskId, b: TaskId) {
    exists p :: IsPath(g, p) && |p| >= 2 && p[0] == a && p[|p| - 1] == b
  }

  ghost predicate Leads(g: Graph, a: TaskId, b: TaskId) {
    a == b || Reaches(g, a, b)
  }

  ghost predicate Cyclic(g: Graph) {
    exists t :: Reaches(g, t, t)
  }

  ghost predicate AllRegistered(g: Graph) {
    forall a, b :: Edge(g, a, b) ==> b in g
  }

  /** t depends, directly or not, on a cycle or on a task nobody registered. */
  ghost predicate Stuck(g: Graph, t: TaskId) {
    exists b :: Leads(g, t, b) && (b !in g || Reaches(g, b, b))
  }

  lemma PathReaches(g: Graph, p: seq<TaskId>)
    requires IsPath(g, p) && |p| >= 2
    ensures Reaches(g, p[0], p[|p| - 1])
  {
  }

  lemma EdgeReaches(g: Graph, a: TaskId, b: TaskId)
    requires Edge(g, a, b)
    ensures Reaches(g, a, b)
  {
    assert IsPath(g, [a, b]);
  }

  lemma ReachesStep(g: Graph, a: TaskId, b: TaskId, c: TaskId)
    requires Reaches(g, a, b) && Edge(g, b, c)
    ensures Reaches(g, a, c)
  {
    var p :| IsPath(g, p) && |p| >= 2 && p[0] == a && p[|p| - 1] == b;
    assert IsPath(g, p + [c]);
    PathReaches(g, p + [c]);
  }

  lemma TailIsPath(g: Graph, p: seq<TaskId>)
    requires IsPath(g, p) && |p| >= 2
    ensures IsPath(g, p[1..])
  {
    forall i | 0 <= i < |p[1..]| - 1 ensures Edge(g, p[1..][i], p[1..][i + 1]) {
      assert Edge(g, p[i + 1], p[i + 2]);
    }
  }

  /** S contains the dependencies of its members. */
  ghost predicate Closed(g: Graph, S: set<TaskId>) {
    forall a, b :: a in S && Edge(g, a, b) ==> b in S
  }

  lemma {:induction false} ClosedPath(g: Graph, S: set<TaskId>, p: seq<TaskId>)
    requires Closed(g, S) && IsPath(g, p) && p[0] in S
    ensures p[|p| - 1] in S
  {
    if |p| > 1 {
      assert Edge(g, p[0], p[1]);
      TailIsPath(g, p);
      ClosedPath(g, S, p[1..]);
    }
  }

  // ---- The graph object --------------------------------------------------

  function Nodes(g: Graph): set<TaskId> {
    g.Keys + set a, d | a in g.Keys && d in g[a] :: d
  }

  /** Tasks that may run once done has completed. */
  function Ready(g: Graph, done: set<TaskId>): set<TaskId> {
    set t | t in g.Keys && t !in done && forall d | d in g[t] :: d in done
  }

  /** What the two maps say about each other: every dependency is mirrored. */
  ghost predicate Mirrored(deps: Graph, rev: Graph) {
    forall a, d :: Edge(deps, a, d) ==> Edge(rev, d, a)
  }

  /** The reverse map holds nothing else. */
  ghost predicate ExactMirror(deps: Graph, rev: Graph) {
    forall a, d :: Edge(deps, a, d) <==> Edge(rev, d, a)
  }

  class DagGraph {
    var dependencies: Graph
    var dependents: Graph

    constructor ()
      ensures dependencies == map[] && dependents == map[]
    {
      dependencies, dependents := map[], map[];
    }

    /** Registers a task. Re-registering replaces its dependencies but leaves
        the old reverse entries behind, so exactness needs a fresh id. */
    method AddTask(id: TaskId, deps: seq<TaskId>)
      modifies this
      ensures dependencies == old(dependencies)[id := deps]
      ensures forall a, d :: Edge(dependents, d, a) <==>
                             Edge(old(dependents), d, a) || (a == id && d in deps)
      ensures old(Mirrored(dependencies, dependents)) ==> Mirrored(dependencies, dependents)
      ensures old(ExactMirror(dependencies, dependents)) ==>
                (ExactMirror(dependencies, dependents) <==>
                 id !in old(dependencies) || Elems(old(dependencies)[id]) <= Elems(deps))
    {
      ghost var rev0, deps0 := dependents, dependencies;
      for i := 0 to |deps|
        invariant dependencies == deps0
        invariant forall a, d :: Edge(dependents, d, a) <==>
                                 Edge(rev0, d, a) || (a == id && d in deps[..i])
      {
        var dep := deps[i];
        var entry := if dep in dependents then dependents[dep] else [];
        ghost var before := dependents;
        dependents := dependents[dep := entry + [id]];
        assert deps[..i + 1] == deps[..i] + [dep];
        assert forall a, d :: Edge(dependents, d, a) <==> Edge(before, d, a) || (a == id && d == dep);
      }
      dependencies := dependencies[id := deps];
      assert deps[..|deps|] == deps;
      if ExactMirror(deps0, rev0) && id in deps0 {
        if d :| d in deps0[id] && d !in deps {
          assert Edge(deps0, id, d);
          assert Edge(rev0, d, id);
          assert Edge(dependents, d, id) && !Edge(dependencies, id, d);
          assert d in Elems(deps0[id]) && d !in Elems(deps);
        }
      }
      assert forall a, d :: Edge(dependencies, a, d) <==>
                            if a == id then d in deps else Edge(deps0, a, d);
    }

    /** Ready tasks, in whatever order the hash map yields them. */
    method ReadyTasks(completed: set<TaskId>) returns (ready: seq<TaskId>)
      ensures NoDup(ready)
      ensures Elems(ready) == Ready(dependencies, completed)
    {
      ready := [];
      var rest := dependencies.Keys;
      while rest != {}
        invariant rest <= dependencies.Keys
        invariant NoDup(ready)
        invariant forall t :: t in ready <==> t in Ready(dependencies, completed) && t !in rest
      {
        var id :| id in rest;
        rest := rest - {id};
        if id !in completed && forall d | d in dependencies[id] :: d in completed {
          ready := ready + [id];
        }
      }
    }

    /** True exactly when some task depends on itself through one or more edges. */
    method HasCycle() returns (found: bool)
      ensures found <==> Cyclic(dependencies)
      ensures found <==> exists t :: t in dependencies && Reaches(dependencies, t, t)
    {
      var visited, stack := {}, {};
      var rest := dependencies.Keys;
      while rest != {}
        invariant rest <= dependencies.Keys && stack == {}
        invariant dependencies.Keys - rest <= visited
        invariant Settled(dependencies, visited)
      {
        var id :| id in rest;
        rest := rest - {id};
        assert visited - {} == visited;
        found, visited, stack := Dfs(dependencies, id, visited, stack);
        if found {
          RegisteredCycle(dependencies);
          return;
        }
        assert visited - {} == visited;
      }
      found := false;
      if Cyclic(dependencies) {
        RegisteredCycle(dependencies);
      }
    }
  }

  // ---- Depth-first search ------------------------------------------------

  /** A set of nodes the search is finished with: closed, and none on a cycle. */
  ghost predicate Settled(g: Graph, S: set<TaskId>) {
    Closed(g, S) && forall v :: v in S ==> !Reaches(g, v, v)
  }

  lemma RegisteredCycle(g: Graph)
    requires Cyclic(g)
    ensures exists t :: t in g && Reaches(g, t, t)
  {
    var t :| Reaches(g, t, t);
    var p :| IsPath(g, p) && |p| >= 2 && p[0] == t && p[|p| - 1] == t;
    assert Edge(g, p[0], p[1]);
  }

  /** Adding a node whose dependencies are all settled keeps the set settled. */
  lemma SettleNode(g: Graph, S: set<TaskId>, node: TaskId)
    requires Settled(g, S)
    requires forall d :: Edge(g, node, d) ==> d in S
    ensures Settled(g, S + {node})
  {
    if node !in S && Reaches(g, node, node) {
      var p :| IsPath(g, p) && |p| >= 2 && p[0] == node && p[|p| - 1] == node;
      assert Edge(g, p[0], p[1]);
      TailIsPath(g, p);
      ClosedPath(g, S, p[1..]);
    }
  }

  method Dfs(g: Graph, node: TaskId, visited0: set<TaskId>, stack0: set<TaskId>)
    returns (found: bool, visited: set<TaskId>, stack: set<TaskId>)
    requires node in Nodes(g)
    requires stack0 <= visited0
    requires forall s :: s in stack0 ==> Reaches(g, s, node)
    requires Settled(g, visited0 - stack0)
    ensures found ==> Cyclic(g)
    ensures !found ==> stack == stack0 && visited0 <= visited && node in visited - stack
    ensures !found ==> Settled(g, visited - stack)
    decreases Nodes(g) - visited0
  {
    visited, stack := visited0, stack0;
    if node in stack {
      return true, visited, stack;
    }
    if node in visited {
      return false, visited, stack;
    }
    visited := visited + {node};
    stack := stack + {node};
    assert visited - stack == visited0 - stack0;
    if node in g {
      var deps := g[node];
      for i := 0 to |deps|
        invariant stack == stack0 + {node} && stack <= visited
        invariant visited0 + {node} <= visited
        invariant forall d :: d in deps[..i] ==> d in visited - stack
        invariant Settled(g, visited - stack)
      {
        var dep := deps[i];
        assert Edge(g, node, dep);
        EdgeReaches(g, node, dep);
        forall s | s in stack0 ensures Reaches(g, s, dep) {
          ReachesStep(g, s, node, dep);
        }
        found, visited, stack := Dfs(g, dep, visited, stack);
        if found {
          return;
        }
        assert deps[..i + 1] == deps[..i] + [dep];
      }
      assert deps[..|deps|] == deps;
    }
    SettleNode(g, visited - stack, node);
    assert visited - (stack - {node}) == (visited - stack) + {node};
    stack := stack - {node};
    found := false;
  }
}
