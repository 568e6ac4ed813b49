/** Plugin dependencies: the depth-first visit that orders plugins, and exactly when it succeeds. */
module PluginGraph {
  import opened Options

  /** What each described plugin requires. */
  type Graph = map<string, seq<string>>

  datatype VisitError = Cycle(name: string) | Missing(name: string)

  // ---------------------------------------------------------------- the graph's own notions

  predicate Requires(g: Graph, from: string, to: string) {
    from in g && to in g[from]
  }

  /** Each element requires the next. */
  predicate IsPath(g: Graph, p: seq<string>) {
    forall i :: 0 <= i < |p| - 1 ==> Requires(g, p[i], p[i + 1])
  }

  ghost predicate HasCycle(g: Graph) {
    exists p: seq<string> :: |p| >= 2 && IsPath(g, p) && p[0] == p[|p| - 1]
  }

  ghost predicate HasMissing(g: Graph) {
    exists from, to :: Requires(g, from, to) && to !in g
  }

  /** `from` requires `to`, directly or through others. */
  ghost predicate TransitivelyRequires(g: Graph, from: string, to: string) {
    exists p: seq<string> :: |p| >= 2 && IsPath(g, p) && p[0] == from && p[|p| - 1] == to
  }

  predicate Distinct(names: seq<string>) {
    forall i, j :: 0 <= i < j < |names| ==> names[i] != names[j]
  }

  predicate DependenciesBefore(g: Graph, order: seq<string>, i: nat)
    requires i < |order|
  {
    order[i] in g && forall dep :: dep in g[order[i]] ==> dep in order[..i]
  }

  /** No repeats, and everything a plugin requires stands before it. */
  predicate Topological(g: Graph, order: seq<string>) {
    Distinct(order) && forall i :: 0 <= i < |order| ==> DependenciesBefore(g, order, i)
  }

  ghost function Position(order: seq<string>, name: string): (i: nat)
    requires name in order
    ensures i < |order| && order[i] == name
  {
    var i: nat :| i < |order| && order[i] == name;
    i
  }

  lemma PositionIsUnique(order: seq<string>, i: nat)
    requires Distinct(order) && i < |order|
    ensures Position(order, order[i]) == i
  {
  }

  /** Along a path the positions fall, so what a plugin needs stands strictly before it. */
  lemma {:induction false} PathDescends(g: Graph, order: seq<string>, p: seq<string>)
    requires Topological(g, order) && |p| >= 2 && IsPath(g, p) && p[0] in order
    ensures p[|p| - 1] in order && Position(order, p[|p| - 1]) < Position(order, p[0])
  {
    var n := |p| - 1;
    var before := p[..n];
    assert before[0] == p[0] && before[|before| - 1] == p[n - 1];
    if n >= 2 {
      assert IsPath(g, before) by {
        forall i | 0 <= i < |before| - 1 ensures Requires(g, before[i], before[i + 1]) {
          assert Requires(g, p[i], p[i + 1]);
        }
      }
      PathDescends(g, order, before);
    }
    var last := Position(order, p[n - 1]);
    assert DependenciesBefore(g, order, last) && Requires(g, p[n - 1], p[n]);
    var i :| 0 <= i < last && order[..last][i] == p[n];
    PositionIsUnique(order, i);
  }

  lemma TopologicalHasNoCycle(g: Graph, order: seq<string>)
    requires Topological(g, order) && forall name :: name in g ==> name in order
    ensures !HasCycle(g) && !HasMissing(g)
  {
    if HasCycle(g) {
      var p: seq<string> :| |p| >= 2 && IsPath(g, p) && p[0] == p[|p| - 1];
      assert Requires(g, p[0], p[1]);
      PathDescends(g, order, p);
    }
    forall from, to | Requires(g, from, to) ensures to in g {
      assert DependenciesBefore(g, order, Position(order, from));
      var i :| 0 <= i < |order| && order[i] == to;
      assert DependenciesBefore(g, order, i);
    }
  }

  lemma PathGrows(g: Graph, p: seq<string>, name: string)
    requires IsPath(g, p) && (p != [] ==> Requires(g, p[|p| - 1], name))
    ensures IsPath(g, p + [name])
  {
    var more := p + [name];
    forall k | 0 <= k < |more| - 1 ensures Requires(g, more[k], more[k + 1]) {
      if k + 1 < |p| { assert Requires(g, p[k], p[k + 1]); }
    }
  }

  lemma PathSuffix(g: Graph, p: seq<string>, i: nat)
    requires IsPath(g, p) && i <= |p|
    ensures IsPath(g, p[i..])
  {
    forall k | 0 <= k < |p[i..]| - 1 ensures Requires(g, p[i..][k], p[i..][k + 1]) {
      assert Requires(g, p[i + k], p[i + k + 1]);
    }
  }

  // ---------------------------------------------------------------- the visit

  /** The two collections the nested `visit` closes over. */
  class DependencyVisit {
    const graph: Graph
    var ordered: seq<string>
    var visiting: set<string>

    constructor (graph: Graph)
      ensures this.graph == graph && ordered == [] && visiting == {}
    {
      this.graph, ordered, visiting := graph, [], {};
    }

    /** `stack` names the visits in progress, outermost first. */
    ghost predicate Valid(stack: seq<string>)
      reads this
    {
      Topological(graph, ordered) && visiting <= graph.Keys
      && (forall name :: name in visiting ==> name !in ordered)
      && IsPath(graph, stack) && (forall name :: name in visiting <==> name in stack)
    }

    ghost predicate Calls(stack: seq<string>, name: string)
      reads this
    {
      if stack == [] then name in graph else Requires(graph, stack[|stack| - 1], name)
    }

    method Visit(name: string, ghost stack: seq<string>) returns (error: Option<VisitError>)
      requires Valid(stack) && Calls(stack, name)
      modifies this
      ensures error.None? ==> Valid(stack) && visiting == old(visiting) && old(ordered) <= ordered && name in ordered
      ensures error.Some? ==> HasCycle(graph) || HasMissing(graph)
      decreases |graph.Keys - visiting|, 1
    {
      if name in visiting {
        ghost var i :| 0 <= i < |stack| && stack[i] == name;
        ghost var loop := stack[i..] + [name];
        PathSuffix(graph, stack, i);
        PathGrows(graph, stack[i..], name);
        assert loop[0] == loop[|loop| - 1];
        return Some(Cycle(name));
      }
      if name in ordered { return None; }
      if name !in graph {
        assert Requires(graph, stack[|stack| - 1], name);
        return Some(Missing(name));
      }
      error := VisitNew(name, stack);
    }

    method VisitNew(name: string, ghost stack: seq<string>) returns (error: Option<VisitError>)
      requires Valid(stack) && Calls(stack, name) && name in graph && name !in visiting && name !in ordered
      modifies this
      ensures error.None? ==> Valid(stack) && visiting == old(visiting) && old(ordered) <= ordered && name in ordered
      ensures error.Some? ==> HasCycle(graph) || HasMissing(graph)
      decreases |graph.Keys - visiting|, 0
    {
      ghost var (before, inner) := (visiting, stack + [name]);
      PathGrows(graph, stack, name);
      visiting := visiting + {name};
      SmallerSet(graph.Keys - visiting, graph.Keys - before, name);
      assert Valid(inner);
      error := VisitDependencies(name, inner);
      if error.Some? { return; }
      Appending(graph, ordered, name);
      assert visiting - {name} == before;
      visiting := visiting - {name};
      ordered := ordered + [name];
    }

    method VisitDependencies(name: string, ghost stack: seq<string>) returns (error: Option<VisitError>)
      requires Valid(stack) && name in graph && stack != [] && stack[|stack| - 1] == name
      modifies this
      ensures error.None? ==> Valid(stack) && visiting == old(visiting) && old(ordered) <= ordered
                              && forall dep :: dep in graph[name] ==> dep in ordered
      ensures error.Some? ==> HasCycle(graph) || HasMissing(graph)
      decreases |graph.Keys - visiting|, 2
    {
      var i := 0;
      while i < |graph[name]|
        invariant i <= |graph[name]| && Valid(stack) && visiting == old(visiting)
        invariant old(ordered) <= ordered && forall k :: 0 <= k < i ==> graph[name][k] in ordered
      {
        error := Visit(graph[name][i], stack);
        if error.Some? { return; }
        i := i + 1;
      }
      error := None;
    }
  }

  lemma SmallerSet(a: set<string>, b: set<string>, extra: string)
    requires a <= b && extra in b && extra !in a
    ensures |a| < |b|
  {
    assert b == a + (b - a);
    assert extra in b - a;
  }

  lemma Appending(g: Graph, order: seq<string>, name: string)
    requires Topological(g, order) && name in g && name !in order && forall dep :: dep in g[name] ==> dep in order
    ensures Topological(g, order + [name])
  {
    var more := order + [name];
    forall i | 0 <= i < |more| ensures DependenciesBefore(g, more, i) {
      if i < |order| {
        assert DependenciesBefore(g, order, i) && more[..i] == order[..i];
      } else {
        assert more[..i] == order;
      }
    }
  }

  /** The dependency visit of `load`: it succeeds exactly when nothing required is missing and nothing requires
      itself. */
  method Order(graph: Graph, names: seq<string>) returns (ordered: seq<string>, error: Option<VisitError>)
    requires forall name :: name in names <==> name in graph
    ensures error.None? <==> !HasCycle(graph) && !HasMissing(graph)
    ensures error.None? ==> Topological(graph, ordered) && forall name :: name in ordered <==> name in graph
  {
    var visit := new DependencyVisit(graph);
    var i := 0;
    while i < |names|
      invariant i <= |names| && visit.Valid([]) && visit.visiting == {}
      invariant forall k :: 0 <= k < i ==> names[k] in visit.ordered
    {
      error := visit.Visit(names[i], []);
      if error.Some? { return [], error; }
      i := i + 1;
    }
    ordered := visit.ordered;
    forall name | name in ordered ensures name in graph {
      assert DependenciesBefore(graph, ordered, Position(ordered, name));
    }
    TopologicalHasNoCycle(graph, ordered);
    return ordered, None;
  }
}
