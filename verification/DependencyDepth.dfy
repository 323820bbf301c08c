/**
 The creation depth of refreshable materialized views: a memoised depth-first search over `dependsOn`
 that stops at views being visited, on any graph, cyclic or not.
 */
module DependencyDepth {

  /** For every materialized view of the target schema the keys it depends on, in order. */
  type Graph = map<string, seq<string>>

  /** An edge that the search follows: the dependency is itself part of the target schema. */
  predicate DependsOn(g: Graph, k: string, d: string) {
    k in g && d in g[k] && d in g
  }

  predicate Path(g: Graph, p: seq<string>) {
    |p| > 0 && forall i :: 0 <= i < |p| - 1 ==> DependsOn(g, p[i], p[i + 1])
  }

  /** `k` depends on itself through one or more edges. */
  ghost predicate OnCycle(g: Graph, k: string) {
    exists p :: Path(g, p) && |p| > 1 && p[0] == k && p[|p| - 1] == k
  }

  /** The rule a finished view meets. */
  ghost predicate DepthOk(g: Graph, depth: map<string, nat>, k: string) {
    k in depth && (OnCycle(g, k) || forall d :: DependsOn(g, k, d) ==> d in depth && depth[k] > depth[d])
  }

  ghost predicate AllOk(g: Graph, depth: map<string, nat>) {
    forall k :: k in depth && k in g ==> DepthOk(g, depth, k)
  }

  /** The map only grows, and an entry never changes. */
  ghost predicate Grows(before: map<string, nat>, after: map<string, nat>) {
    forall k :: k in before ==> k in after && after[k] == before[k]
  }

  /** The views being visited are the ones on the current path, which leads to the key at hand. */
  ghost predicate OnStack(g: Graph, stack: seq<string>, visiting: set<string>, key: string) {
    && (forall k :: k in visiting <==> k in stack)
    && Path(g, stack + [key])
  }

  lemma GrowsKeepsOk(g: Graph, before: map<string, nat>, after: map<string, nat>, k: string)
    requires DepthOk(g, before, k) && Grows(before, after)
    ensures DepthOk(g, after, k)
  {
    hide OnCycle;
  }

  lemma GrowsTransitive(a: map<string, nat>, b: map<string, nat>, c: map<string, nat>)
    requires Grows(a, b) && Grows(b, c)
    ensures Grows(a, c)
  {
  }

  /** A dependency on the current path closes a cycle through the key at hand. */
  lemma BackEdgeIsCycle(g: Graph, stack: seq<string>, key: string, d: string)
    requires Path(g, stack + [key]) && DependsOn(g, key, d) && (d in stack || d == key)
    ensures OnCycle(g, key)
  {
    var p := stack + [key];
    var i := |stack|;
    if d != key {
      i :| 0 <= i < |stack| && stack[i] == d;
    }
    var cycle := [key] + p[i..];
    assert forall j :: 0 <= j < |cycle| - 1 ==> DependsOn(g, cycle[j], cycle[j + 1]) by {
      forall j | 0 <= j < |cycle| - 1 ensures DependsOn(g, cycle[j], cycle[j + 1]) {
        if j > 0 {
          assert cycle[j] == p[i + j - 1] && cycle[j + 1] == p[i + j];
        }
      }
    }
    assert Path(g, cycle) && cycle[0] == key && cycle[|cycle| - 1] == key;
  }

  class DepthSearch {
    const graph: Graph
    var depth: map<string, nat>
    var visiting: set<string>

    constructor (graph: Graph)
      ensures this.graph == graph && depth == map[] && visiting == {}
    {
      this.graph := graph;
      depth, visiting := map[], {};
    }

    /** `compute`: the cached depth, 0 for a view being visited, else one more than its dependencies. */
    method Compute(key: string, ghost stack: seq<string>) returns (result: nat)
      requires key in graph && visiting <= graph.Keys && visiting !! depth.Keys && AllOk(graph, depth)
      requires OnStack(graph, stack, visiting, key)
      modifies this
      ensures visiting == old(visiting) && visiting !! depth.Keys && AllOk(graph, depth) && Grows(old(depth), depth)
      ensures key !in visiting ==> key in depth && result == depth[key]
      decreases graph.Keys - visiting, 0
    {
      result := 0;
      if key in depth {
        result := depth[key];
      } else if key !in visiting {
        visiting := visiting + {key};
        result := Deepest(key, stack);
        visiting := visiting - {key};
        ghost var before := depth;
        depth := depth[key := result];
        forall k | k in depth && k in graph ensures DepthOk(graph, depth, k) {
          if k != key {
            GrowsKeepsOk(graph, before, depth, k);
          }
        }
      }
    }

    /** The loop over the dependencies of a view that is being visited. */
    method Deepest(key: string, ghost stack: seq<string>) returns (result: nat)
      requires key in graph && key in visiting && key !in stack && visiting <= graph.Keys && visiting !! depth.Keys
      requires AllOk(graph, depth) && OnStack(graph, stack, visiting - {key}, key)
      modifies this
      ensures visiting == old(visiting) && visiting !! depth.Keys && AllOk(graph, depth) && Grows(old(depth), depth)
      ensures OnCycle(graph, key) || forall d :: DependsOn(graph, key, d) ==> d in depth && result > depth[d]
      decreases graph.Keys - visiting, 1
    {
      hide OnCycle, AllOk, Path;
      result := 0;
      var deps := graph[key];
      for i := 0 to |deps|
        invariant visiting == old(visiting) && visiting !! depth.Keys && AllOk(graph, depth) && Grows(old(depth), depth)
        invariant OnCycle(graph, key)
          || forall j :: 0 <= j < i && DependsOn(graph, key, deps[j]) ==> deps[j] in depth && result > depth[deps[j]]
      {
        if deps[i] in graph {
          OneStepDown(graph, stack, visiting, key, deps[i]);
          ghost var before := depth;
          var below := Compute(deps[i], stack + [key]);
          GrowsTransitive(old(depth), before, depth);
          result := if result < below + 1 then below + 1 else result;
        }
      }
    }
  }

  /** Following an edge: the path grows, and an edge back into it is a cycle. */
  lemma OneStepDown(g: Graph, stack: seq<string>, visiting: set<string>, key: string, d: string)
    requires OnStack(g, stack, visiting - {key}, key) && key in visiting && DependsOn(g, key, d)
    ensures OnStack(g, stack + [key], visiting, d)
    ensures d in visiting ==> OnCycle(g, key)
  {
    if d in visiting {
      BackEdgeIsCycle(g, stack, key, d);
    }
  }

  /** `materializedViewCreationDepth` over the views of the schema, in the schema's order. */
  method CreationDepth(graph: Graph, keys: seq<string>) returns (depth: map<string, nat>)
    requires forall k :: k in keys <==> k in graph
    ensures graph.Keys <= depth.Keys
    ensures forall k, d :: DependsOn(graph, k, d) && !OnCycle(graph, k) ==> depth[k] > depth[d]
  {
    var search := new DepthSearch(graph);
    for i := 0 to |keys|
      invariant search.graph == graph && search.visiting == {} && AllOk(graph, search.depth)
      invariant forall j :: 0 <= j < i ==> keys[j] in search.depth
      invariant fresh(search)
    {
      assert Path(graph, [] + [keys[i]]);
      var _ := search.Compute(keys[i], []);
    }
    depth := search.depth;
    forall k, d | DependsOn(graph, k, d) && !OnCycle(graph, k) ensures depth[k] > depth[d] {
      assert DepthOk(graph, depth, k);
    }
  }

  /** Around a cycle no depths can put every view behind its dependencies: the exception is necessary. */
  lemma {:induction false} CycleHasNoOrder(g: Graph, depth: map<string, nat>, p: seq<string>)
    requires Path(g, p) && |p| > 1 && forall i :: 0 <= i < |p| ==> p[i] in depth
    ensures depth[p[0]] > depth[p[|p| - 1]] || exists i :: 0 <= i < |p| - 1 && depth[p[i]] <= depth[p[i + 1]]
  {
    if |p| > 2 {
      var front := p[..|p| - 1];
      CycleHasNoOrder(g, depth, front);
      if i :| 0 <= i < |front| - 1 && depth[front[i]] <= depth[front[i + 1]] {
        assert depth[p[i]] <= depth[p[i + 1]];
      } else {
        assert depth[p[0]] > depth[p[|p| - 2]];
        assert depth[p[|p| - 2]] > depth[p[|p| - 2 + 1]] || depth[p[|p| - 2]] <= depth[p[|p| - 2 + 1]];
      }
    } else {
      assert depth[p[0]] > depth[p[0 + 1]] || depth[p[0]] <= depth[p[0 + 1]];
    }
  }
}
