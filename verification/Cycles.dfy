/** The depth-first cycle finder of the architecture oracle. */
module Cycles {
  import opened Wrappers
  import opened Text

  type Edge = (string, string)

  // Self-edges are dropped.
  predicate HasEdge(edges: seq<Edge>, a: string, b: string) {
    a != b && (a, b) in edges
  }

  // A walk with at least one edge.
  predicate IsWalk(edges: seq<Edge>, walk: seq<string>) {
    |walk| >= 2 && forall i :: 0 < i < |walk| ==> HasEdge(edges, walk[i - 1], walk[i])
  }

  ghost predicate Acyclic(edges: seq<Edge>) {
    forall walk :: IsWalk(edges, walk) ==> walk[0] != walk[|walk| - 1]
  }

  // A closed walk whose nodes are distinct apart from its ends.
  predicate IsSimpleCycle(edges: seq<Edge>, cycle: seq<string>) {
    && IsWalk(edges, cycle)
    && cycle[0] == cycle[|cycle| - 1]
    && forall i, j :: 0 <= i < j < |cycle| - 1 ==> cycle[i] != cycle[j]
  }

  type Graph = map<string, set<string>>

  ghost predicate Represents(graph: Graph, edges: seq<Edge>) {
    && (forall a, b :: a in graph && b in graph[a] <==> HasEdge(edges, a, b))
    && (forall a, b :: a in graph && b in graph[a] ==> b in graph)
  }

  // Finished nodes in the order they were finished: every edge leads to an earlier one.
  predicate Topological(graph: Graph, order: seq<string>) {
    forall i :: 0 <= i < |order| ==>
      order[i] in graph && forall b :: b in graph[order[i]] ==> b in order[..i]
  }

  lemma TopologicalExtend(graph: Graph, order: seq<string>, node: string)
    requires Topological(graph, order) && node in graph
    requires forall b :: b in graph[node] ==> b in order
    ensures Topological(graph, order + [node])
  {
    var order' := order + [node];
    forall i | 0 <= i < |order'|
      ensures order'[i] in graph && forall b :: b in graph[order'[i]] ==> b in order'[..i]
    {
      assert order'[..i] == order[..i];
      assert i == |order| ==> order[..i] == order;
    }
  }

  class Finder {
    const graph: Graph
    ghost const edges: seq<Edge>
    var visiting: set<string>
    var visited: set<string>
    var path: seq<string>
    ghost var order: seq<string>

    constructor (graph: Graph, ghost edges: seq<Edge>)
      requires Represents(graph, edges)
      ensures Valid() && path == [] && visited == {} && this.graph == graph && this.edges == edges
    {
      this.graph, this.edges := graph, edges;
      visiting, visited, path, order := {}, {}, [], [];
    }

    ghost predicate Valid()
      reads this
    {
      && Represents(graph, edges)
      && visiting <= graph.Keys && visited <= graph.Keys && visiting !! visited
      && (forall n :: n in visiting <==> n in path)
      && (forall n :: n in visited <==> n in order)
      && (forall i, j :: 0 <= i < j < |path| ==> path[i] != path[j])
      && (forall i :: 0 < i < |path| ==> HasEdge(edges, path[i - 1], path[i]))
      && Topological(graph, order)
    }

    method CloseCycle(node: string) returns (cycle: seq<string>)
      requires Valid() && node in visiting && HasEdge(edges, path[|path| - 1], node)
      ensures IsSimpleCycle(edges, cycle)
    {
      var start := 0;
      while path[start] != node
        invariant 0 <= start < |path| && node in path[start..]
        decreases |path| - start
      {
        start := start + 1;
      }
      cycle := path[start..] + [node];
      forall i | 0 < i < |cycle| ensures HasEdge(edges, cycle[i - 1], cycle[i]) {
        if start + i < |path| {
          assert cycle[i - 1] == path[start + i - 1] && cycle[i] == path[start + i];
        }
      }
    }

    method Visit(node: string) returns (cycle: Option<seq<string>>)
      requires Valid() && node in graph
      requires path != [] ==> HasEdge(edges, path[|path| - 1], node)
      modifies this
      ensures cycle.Some? ==> IsSimpleCycle(edges, cycle.value)
      ensures cycle.None? ==>
                && Valid() && path == old(path) && visiting == old(visiting)
                && old(visited) <= visited && node in visited
      decreases graph.Keys - visiting - visited, 1
    {
      if node in visiting {
        var c := CloseCycle(node);
        return Some(c);
      }
      if node in visited {
        return None;
      }
      ghost var before := path;
      assert node in graph.Keys - visiting - visited;
      visiting := visiting + {node};
      path := path + [node];
      cycle := VisitTargets(node);
      if cycle.Some? {
        return;
      }
      path := path[..|path| - 1];
      visiting := visiting - {node};
      visited := visited + {node};
      TopologicalExtend(graph, order, node);
      order := order + [node];
      assert path == before;
    }

    method VisitTargets(node: string) returns (cycle: Option<seq<string>>)
      requires Valid() && path != [] && path[|path| - 1] == node && node in graph
      modifies this
      ensures cycle.Some? ==> IsSimpleCycle(edges, cycle.value)
      ensures cycle.None? ==>
                && Valid() && path == old(path) && visiting == old(visiting)
                && old(visited) <= visited && graph[node] <= visited
      decreases graph.Keys - visiting - visited, 2
    {
      var targets := SortSet(graph[node]);
      for i := 0 to |targets|
        invariant Valid() && path == old(path) && visiting == old(visiting) && old(visited) <= visited
        invariant forall k :: 0 <= k < i ==> targets[k] in visited
      {
        assert targets[i] in targets;
        cycle := Visit(targets[i]);
        if cycle.Some? {
          return;
        }
      }
      return None;
    }
  }

  // `graph.setdefault(source, set()).add(target)`, then `graph.setdefault(target, set())`
  function AddEdge(graph: Graph, source: string, target: string): Graph {
    var g := graph[source := (if source in graph then graph[source] else {}) + {target}];
    if target in g then g else g[target := {}]
  }

  lemma AddEdgeRepresents(graph: Graph, edges: seq<Edge>, source: string, target: string)
    requires Represents(graph, edges) && source != target
    ensures Represents(AddEdge(graph, source, target), edges + [(source, target)])
  {
    var g, edges' := AddEdge(graph, source, target), edges + [(source, target)];
    forall a, b ensures (a in g && b in g[a]) <==> HasEdge(edges', a, b) {
      assert (a, b) in edges' <==> (a, b) in edges || (a, b) == (source, target);
      assert (a in graph && b in graph[a]) <==> HasEdge(edges, a, b);
    }
  }

  lemma SelfEdgeRepresents(graph: Graph, edges: seq<Edge>, node: string)
    requires Represents(graph, edges)
    ensures Represents(graph, edges + [(node, node)])
  {
    forall a, b ensures HasEdge(edges + [(node, node)], a, b) <==> HasEdge(edges, a, b) {
    }
  }

  method BuildGraph(edges: seq<Edge>) returns (graph: Graph)
    ensures Represents(graph, edges)
  {
    graph := map[];
    for i := 0 to |edges|
      invariant Represents(graph, edges[..i])
    {
      var (source, target) := edges[i];
      assert edges[..i + 1] == edges[..i] + [(source, target)];
      if source != target {
        AddEdgeRepresents(graph, edges[..i], source, target);
        graph := AddEdge(graph, source, target);
      } else {
        SelfEdgeRepresents(graph, edges[..i], source);
      }
    }
    assert edges[..|edges|] == edges;
  }

  // Along a walk inside a topological order the positions fall.
  lemma {:induction false} WalkFalls(graph: Graph, edges: seq<Edge>, order: seq<string>, walk: seq<string>, i: nat)
    returns (j: nat)
    requires Represents(graph, edges) && Topological(graph, order) && IsWalk(edges, walk)
    requires i < |order| && order[i] == walk[0]
    ensures j < i && order[j] == walk[|walk| - 1]
    decreases |walk|
  {
    assert HasEdge(edges, walk[0], walk[1]);
    j :| 0 <= j < i && order[j] == walk[1];
    if |walk| > 2 {
      var k := WalkFalls(graph, edges, order, walk[1..], j);
      j := k;
    }
  }

  // The leftmost place of a node is reached by no walk from itself.
  lemma TopologicalIsAcyclic(graph: Graph, edges: seq<Edge>, order: seq<string>)
    requires Represents(graph, edges) && Topological(graph, order)
    requires forall n :: n in graph ==> n in order
    ensures Acyclic(edges)
  {
    forall walk | IsWalk(edges, walk) ensures walk[0] != walk[|walk| - 1] {
      assert HasEdge(edges, walk[0], walk[1]);
      var i := First(order, walk[0]);
      var j := WalkFalls(graph, edges, order, walk, i);
    }
  }

  lemma First(order: seq<string>, n: string) returns (i: nat)
    requires n in order
    ensures i < |order| && order[i] == n && forall k :: 0 <= k < i ==> order[k] != n
  {
    i := 0;
    while order[i] != n
      invariant 0 <= i < |order| && n in order[i..]
      invariant forall k :: 0 <= k < i ==> order[k] != n
      decreases |order| - i
    {
      i := i + 1;
    }
  }

  // Exact: no cycle is reported if and only if there is none, and a reported one is real and simple.
  method FindCycle(edges: seq<Edge>) returns (cycle: Option<seq<string>>)
    ensures cycle.None? <==> Acyclic(edges)
    ensures cycle.Some? ==> IsSimpleCycle(edges, cycle.value)
  {
    var graph := BuildGraph(edges);
    var finder := new Finder(graph, edges);
    var nodes := SortSet(graph.Keys);
    for i := 0 to |nodes|
      invariant finder.Valid() && finder.path == [] && finder.graph == graph && finder.edges == edges
      invariant forall k :: 0 <= k < i ==> nodes[k] in finder.visited
    {
      assert nodes[i] in nodes;
      cycle := finder.Visit(nodes[i]);
      if cycle.Some? {
        return;
      }
    }
    TopologicalIsAcyclic(graph, edges, finder.order);
    return None;
  }
}
