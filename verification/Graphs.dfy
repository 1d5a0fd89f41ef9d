/** The dependency graph and its depth-first topological sort (pipelining.go, topologicalSort). */
module Graphs {
  import opened Sequences
  import opened Wrappers

  type Graph<T> = map<T, seq<T>>

  /** Reading a missing key of a Go map gives the zero value, here the empty slice. */
  function Targets<T>(g: Graph<T>, u: T): seq<T> {
    if u in g then g[u] else []
  }

  ghost predicate Edge<T>(g: Graph<T>, u: T, v: T) {
    v in Targets(g, u)
  }

  ghost function Nodes<T>(g: Graph<T>): set<T> {
    g.Keys + set u, v | u in g && v in g[u] :: v
  }

  ghost predicate IsWalk<T>(g: Graph<T>, p: seq<T>) {
    forall i :: 0 <= i < |p| - 1 ==> Edge(g, p[i], p[i + 1])
  }

  ghost predicate IsCycle<T>(g: Graph<T>, p: seq<T>) {
    |p| >= 2 && IsWalk(g, p) && p[0] == p[|p| - 1]
  }

  ghost predicate HasCycle<T(!new)>(g: Graph<T>) {
    exists p: seq<T> :: IsCycle(g, p)
  }

  /** Every node exactly once, every edge pointing forward. */
  ghost predicate IsTopologicalOrder<T(!new)>(g: Graph<T>, order: seq<T>) {
    && Distinct(order)
    && (forall u :: u in order <==> u in Nodes(g))
    && (forall i, j :: 0 <= i < |order| && 0 <= j < |order| && Edge(g, order[i], order[j]) ==> i < j)
  }

  // ---------------------------------------------------------------- an order refutes every cycle

  lemma {:induction false} WalkClimbs<T(!new)>(g: Graph<T>, order: seq<T>, p: seq<T>, first: nat)
    requires IsTopologicalOrder(g, order)
    requires |p| >= 2 && IsWalk(g, p)
    requires first < |order| && order[first] == p[0]
    ensures exists last :: first < last < |order| && order[last] == p[|p| - 1]
    decreases |p|
  {
    assert Edge(g, p[0], p[1]);
    assert p[1] in Nodes(g);
    var next :| 0 <= next < |order| && order[next] == p[1];
    assert Edge(g, order[first], order[next]);
    if |p| > 2 {
      var tail := p[1..];
      forall i | 0 <= i < |tail| - 1
        ensures Edge(g, tail[i], tail[i + 1])
      {
        assert Edge(g, p[i + 1], p[i + 1 + 1]);
      }
      WalkClimbs(g, order, tail, next);
    }
  }

  /** A graph that can be ordered has no directed cycle. */
  lemma OrderRefutesCycle<T(!new)>(g: Graph<T>, order: seq<T>)
    requires IsTopologicalOrder(g, order)
    ensures !HasCycle(g)
  {
    if HasCycle(g) {
      var p :| IsCycle(g, p);
      assert Edge(g, p[0], p[1]);
      assert p[0] in Nodes(g);
      var first :| 0 <= first < |order| && order[first] == p[0];
      WalkClimbs(g, order, p, first);
    }
  }

  /** Whatever a prefix of a topological order contains, it contains everything that points at it, and earlier. */
  lemma PrefixIsClosed<T(!new)>(g: Graph<T>, order: seq<T>, k: nat, u: T, j: nat)
    requires IsTopologicalOrder(g, order)
    requires k <= |order| && j < k && Edge(g, u, order[j])
    ensures u in order[..j]
  {
    assert u in Nodes(g);
    var i :| 0 <= i < |order| && order[i] == u;
    assert Edge(g, order[i], order[j]);
    assert order[..j][i] == u;
  }

  // ---------------------------------------------------------------- the sort itself

  /** No repetitions, and every element before all its successors. */
  ghost predicate BeforeSuccessors<T(!new)>(g: Graph<T>, s: seq<T>) {
    && Distinct(s)
    && forall i, v :: 0 <= i < |s| && Edge(g, s[i], v) ==> v in s[i + 1..]
  }

  lemma PrependKeepsOrder<T(!new)>(g: Graph<T>, u: T, s: seq<T>)
    requires BeforeSuccessors(g, s) && u !in s && (forall v :: Edge(g, u, v) ==> v in s)
    ensures BeforeSuccessors(g, [u] + s)
  {
    var longer := [u] + s;
    forall i, v | 0 <= i < |longer| && Edge(g, longer[i], v)
      ensures v in longer[i + 1..]
    {
      assert longer[i + 1..] == s[i..];
    }
  }

  /** The variables that the source's recursive closure captures. */
  class DepthFirstSorter<T(==, !new)> {
    const graph: Graph<T>
    var visited: set<T>
    var visiting: set<T>
    var result: seq<T>

    constructor (g: Graph<T>)
      ensures graph == g && visited == {} && visiting == {} && result == []
    {
      graph, visited, visiting, result := g, {}, {}, [];
    }

    /** Black nodes are exactly the result, listed before all their successors; grey nodes are the current walk. */
    ghost predicate Valid(walk: seq<T>)
      reads this
    {
      && visited !! visiting
      && visited + visiting <= Nodes(graph)
      && (forall u :: u in result <==> u in visited)
      && BeforeSuccessors(graph, result)
      && (forall u :: u in walk <==> u in visiting)
      && IsWalk(graph, walk)
    }

    method Visit(op: T, ghost walk: seq<T>) returns (ok: bool)
      requires Valid(walk) && op in Nodes(graph)
      requires walk != [] ==> Edge(graph, walk[|walk| - 1], op)
      modifies this
      ensures ok ==> Valid(walk) && op in visited
      ensures ok ==> visiting == old(visiting) && old(visited) <= visited
      ensures !ok ==> HasCycle(graph)
      decreases Nodes(graph) - visited - visiting
    {
      if op in visiting {
        ghost var i :| 0 <= i < |walk| && walk[i] == op;
        ClosesCycle(graph, walk, i, op);
        return false;
      }
      if op in visited {
        return true;
      }
      visiting := visiting + {op};
      ghost var longer := walk + [op];
      assert Valid(longer);
      var deps := Targets(graph, op);
      for i := 0 to |deps|
        invariant Valid(longer)
        invariant visiting == old(visiting) + {op} && old(visited) <= visited
        invariant forall j :: 0 <= j < i ==> deps[j] in visited
      {
        assert Edge(graph, op, deps[i]);
        assert deps[i] in Nodes(graph);
        ok := Visit(deps[i], longer);
        if !ok {
          return false;
        }
      }
      PrependKeepsOrder(graph, op, result);
      visiting := visiting - {op};
      visited := visited + {op};
      result := [op] + result;
      return true;
    }
  }

  lemma ClosesCycle<T(!new)>(g: Graph<T>, walk: seq<T>, i: nat, op: T)
    requires IsWalk(g, walk) && i < |walk| && walk[i] == op && Edge(g, walk[|walk| - 1], op)
    ensures HasCycle(g)
  {
    var p := walk[i..] + [op];
    forall k | 0 <= k < |p| - 1
      ensures Edge(g, p[k], p[k + 1])
    {
      if k < |p| - 2 {
        assert Edge(g, walk[i + k], walk[i + k + 1]);
      }
    }
    assert IsCycle(g, p);
  }

  /** The roots may be visited in any order: Go leaves the order of a map range open, and so does the choice below. */
  method TopologicalSort<T(==, !new)>(graph: Graph<T>) returns (order: Option<seq<T>>)
    ensures order.None? <==> HasCycle(graph)
    ensures order.Some? ==> IsTopologicalOrder(graph, order.value)
  {
    var sorter := new DepthFirstSorter(graph);
    var remaining := graph.Keys;
    while remaining != {}
      invariant sorter.Valid([]) && sorter.graph == graph && fresh(sorter)
      invariant remaining <= graph.Keys && graph.Keys - remaining <= sorter.visited
      decreases remaining
    {
      var op :| op in remaining;
      remaining := remaining - {op};
      if op !in sorter.visited {
        var ok := sorter.Visit(op, []);
        if !ok {
          return None;
        }
      }
    }
    ghost var sorted := sorter.result;
    forall u | u in Nodes(graph)
      ensures u in sorted
    {
      if u !in graph {
        var w :| w in graph && u in graph[w];
        assert w in sorted;
        var i :| 0 <= i < |sorted| && sorted[i] == w;
        assert Edge(graph, sorted[i], u);
      }
    }
    forall i, j | 0 <= i < |sorted| && 0 <= j < |sorted| && Edge(graph, sorted[i], sorted[j])
      ensures i < j
    {
      var k :| 0 <= k < |sorted[i + 1..]| && sorted[i + 1..][k] == sorted[j];
      assert sorted[i + 1 + k] == sorted[j];
    }
    OrderRefutesCycle(graph, sorted);
    return Some(sorter.result);
  }
}
