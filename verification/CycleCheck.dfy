/**
 The circular-dependency rule of the architecture validator: the dependency graph built from
 the consumed interfaces, and the depth-first search that shares one `visited` set between
 all branches and roots while every call works on its own copy of `path`.
 */
module CycleCheck {
  import opened Graphs

  /** A consumed interface may lack its `interface_id`; an empty one is skipped too. */
  datatype InterfaceId = Missing | InterfaceId(name: string)

  datatype Design = Design(moduleId: Id, consumed: seq<InterfaceId>)

  datatype Violation = CircularDependency(moduleId: Id, cycle: seq<Id>)

  datatype SearchResult = NoCycle | Found(cycle: seq<Id>)

  // ---- Building the graph ----

  /** The part of an interface id before its first dot. */
  function Provider(name: string): Id {
    if name == "" || name[0] == '.' then "" else [name[0]] + Provider(name[1..])
  }

  /** The modules a design depends on: the providers of the interfaces it names. */
  ghost function Dependencies(d: Design): set<Id> {
    set c | c in d.consumed && c.InterfaceId? && c.name != "" :: Provider(c.name)
  }

  /** A dictionary filled design by design, so a repeated module id keeps its last entry. */
  ghost function GraphOf(designs: seq<Design>): Graph {
    if designs == [] then map[] else
      var last := designs[|designs| - 1];
      GraphOf(designs[..|designs| - 1])[last.moduleId := Dependencies(last)]
  }

  /** The graph read off the designs: each module's edges are those of its last design. */
  lemma {:induction false} GraphHasLastDesigns(designs: seq<Design>, i: nat)
    requires i < |designs| && forall j :: i < j < |designs| ==> designs[j].moduleId != designs[i].moduleId
    ensures designs[i].moduleId in GraphOf(designs)
    ensures GraphOf(designs)[designs[i].moduleId] == Dependencies(designs[i])
  {
    if i < |designs| - 1 {
      GraphHasLastDesigns(designs[..|designs| - 1], i);
    }
  }

  lemma {:induction false} GraphHasOnlyDesigns(designs: seq<Design>, m: Id)
    requires m in GraphOf(designs)
    ensures exists i :: 0 <= i < |designs| && designs[i].moduleId == m
  {
    var n := |designs| - 1;
    if designs[n].moduleId != m {
      GraphHasOnlyDesigns(designs[..n], m);
      var i :| 0 <= i < n && designs[..n][i].moduleId == m;
      assert designs[i].moduleId == m;
    }
  }

  // ---- What an edge and a cycle mean for the designs ----

  /** The interface is named by the module: by its id alone, or followed by a dot. */
  predicate NamedBy(name: string, m: Id) {
    '.' !in m && (name == m || m + "." <= name)
  }

  /** The provider is the one module that names the interface. */
  lemma {:induction false} ProviderIff(name: string, m: Id)
    ensures Provider(name) == m <==> NamedBy(name, m)
  {
    if name != "" && name[0] != '.' {
      var rest := name[1..];
      ProviderIff(rest, Provider(rest));
      if m != "" && NamedBy(name, m) {
        assert m[0] == name[0] && NamedBy(rest, m[1..]);
        ProviderIff(rest, m[1..]);
        assert m == [m[0]] + m[1..];
      }
      assert name == [name[0]] + rest;
    }
  }

  predicate IsLastDesignOf(designs: seq<Design>, i: nat, m: Id) {
    i < |designs| && designs[i].moduleId == m && forall j :: i < j < |designs| ==> designs[j].moduleId != m
  }

  /** The last design of module `a` consumes an interface that module `b` names. */
  ghost predicate ConsumesFrom(designs: seq<Design>, a: Id, b: Id) {
    exists i: nat, c :: IsLastDesignOf(designs, i, a) && c in designs[i].consumed && c.InterfaceId? && c.name != ""
      && NamedBy(c.name, b)
  }

  lemma {:induction false} LastDesignExists(designs: seq<Design>, m: Id) returns (i: nat)
    requires exists j :: 0 <= j < |designs| && designs[j].moduleId == m
    ensures IsLastDesignOf(designs, i, m)
  {
    i := |designs| - 1;
    while designs[i].moduleId != m
      invariant i < |designs| && forall j :: i < j < |designs| ==> designs[j].moduleId != m
      invariant exists j :: 0 <= j <= i && designs[j].moduleId == m
      decreases i
    {
      i := i - 1;
    }
  }

  lemma EdgeIffConsumes(designs: seq<Design>, a: Id, b: Id)
    ensures b in Next(GraphOf(designs), a) <==> ConsumesFrom(designs, a, b)
  {
    if a in GraphOf(designs) {
      GraphHasOnlyDesigns(designs, a);
      var i := LastDesignExists(designs, a);
      GraphHasLastDesigns(designs, i);
      forall c | c in designs[i].consumed && c.InterfaceId? ensures Provider(c.name) == b <==> NamedBy(c.name, b) {
        ProviderIff(c.name, b);
      }
      assert forall j: nat :: IsLastDesignOf(designs, j, a) ==> j == i;
    } else if ConsumesFrom(designs, a, b) {
      var i: nat :| IsLastDesignOf(designs, i, a);
      GraphHasLastDesigns(designs, i);
    }
  }

  /** A list of modules, each of which consumes from the next, that ends where it begins. */
  ghost predicate IsCyclicList(designs: seq<Design>, c: seq<Id>) {
    |c| > 1 && c[0] == c[|c| - 1] && forall i :: 0 < i < |c| ==> ConsumesFrom(designs, c[i - 1], c[i])
  }

  lemma CyclicListIff(designs: seq<Design>, c: seq<Id>)
    ensures IsCycle(GraphOf(designs), c) <==> IsCyclicList(designs, c)
  {
    forall i | 0 < i < |c| ensures c[i] in Next(GraphOf(designs), c[i - 1]) <==> ConsumesFrom(designs, c[i - 1], c[i]) {
      EdgeIffConsumes(designs, c[i - 1], c[i]);
    }
  }

  lemma AcyclicIffNoCyclicList(designs: seq<Design>)
    ensures Acyclic(GraphOf(designs)) <==> forall c :: !IsCyclicList(designs, c)
  {
    forall c ensures IsCycle(GraphOf(designs), c) <==> IsCyclicList(designs, c) {
      CyclicListIff(designs, c);
    }
    if n :| Reaches(GraphOf(designs), n, n) {
      var w :| WalkFromTo(GraphOf(designs), w, n, n);
      assert IsCycle(GraphOf(designs), w);
    }
    if c :| IsCyclicList(designs, c) {
      CycleReachesItself(GraphOf(designs), c);
    }
  }

  method ProvidersOf(d: Design) returns (dependencies: set<Id>)
    ensures dependencies == Dependencies(d)
  {
    dependencies := {};
    for i := 0 to |d.consumed|
      invariant dependencies == Dependencies(Design(d.moduleId, d.consumed[..i]))
    {
      var c := d.consumed[i];
      assert d.consumed[..i + 1] == d.consumed[..i] + [c];
      if c.InterfaceId? && c.name != "" {
        dependencies := dependencies + {Provider(c.name)};
      }
    }
    assert d.consumed[..|d.consumed|] == d.consumed;
  }

  method BuildGraph(designs: seq<Design>) returns (g: Graph)
    ensures g == GraphOf(designs)
  {
    g := map[];
    for i := 0 to |designs|
      invariant g == GraphOf(designs[..i])
    {
      var dependencies := ProvidersOf(designs[i]);
      g := g[designs[i].moduleId := dependencies];
      assert designs[..i + 1][..i] == designs[..i];
    }
    assert designs[..|designs|] == designs;
  }

  // ---- The search ----

  /** The reported list is a real cycle: consecutive entries are edges, first equals last. */
  ghost predicate IsCycle(g: Graph, c: seq<Id>) {
    |c| > 1 && c[0] == c[|c| - 1] && Walk(g, c)
  }

  lemma CycleReachesItself(g: Graph, c: seq<Id>)
    requires IsCycle(g, c)
    ensures !Acyclic(g)
  {
    assert WalkFromTo(g, c, c[0], c[0]);
    assert Reaches(g, c[0], c[0]);
  }

  function PathNodes(path: seq<Id>): set<Id> {
    set n | n in path
  }

  /** `path` followed by `node` walks along edges. */
  ghost predicate Extends(g: Graph, path: seq<Id>, node: Id) {
    path == [] || Walk(g, path + [node])
  }

  /** A finished set of nodes: no edge leaves it, and none of its members is on a cycle. */
  ghost predicate Finished(g: Graph, s: set<Id>) {
    Closed(g, s) && forall n :: n in s ==> !Reaches(g, n, n)
  }

  lemma FinishNode(g: Graph, s: set<Id>, node: Id)
    requires Finished(g, s) && node !in s && Next(g, node) <= s
    ensures Finished(g, s + {node})
  {
    if Reaches(g, node, node) {
      var b := FirstEdge(g, node, node);
      ClosedKeepsReachable(g, s, b, node);
    }
  }

  function FirstIndex(path: seq<Id>, node: Id): (i: nat)
    requires node in path
    ensures i < |path| && path[i] == node && node !in path[..i]
  {
    if path[0] == node then 0 else 1 + FirstIndex(path[1..], node)
  }

  lemma CutCycle(g: Graph, path: seq<Id>, node: Id)
    requires node in path && Extends(g, path, node)
    ensures IsCycle(g, path[FirstIndex(path, node)..] + [node])
  {
    var start := FirstIndex(path, node);
    var c := path[start..] + [node];
    forall i | 0 < i < |c| ensures c[i] in Next(g, c[i - 1]) {
      assert c[i] == (path + [node])[start + i] && c[i - 1] == (path + [node])[start + i - 1];
    }
  }

  lemma EnterNode(visited: set<Id>, path: seq<Id>, node: Id)
    requires node !in visited && PathNodes(path) <= visited
    ensures PathNodes(path + [node]) <= visited + {node}
    ensures visited + {node} - PathNodes(path + [node]) == visited - PathNodes(path)
  {
    assert PathNodes(path + [node]) == PathNodes(path) + {node};
  }

  lemma LeaveNode(visited: set<Id>, path: seq<Id>, node: Id)
    requires node in visited && node !in path
    ensures visited - PathNodes(path) == visited - PathNodes(path + [node]) + {node}
    ensures PathNodes(path) <= PathNodes(path + [node])
  {
    assert PathNodes(path + [node]) == PathNodes(path) + {node};
  }

  lemma StepFurther(g: Graph, path: seq<Id>, node: Id, next: Id)
    requires Extends(g, path, node) && next in Next(g, node)
    ensures Extends(g, path + [node], next) && next in Nodes(g)
  {
    assert Walk(g, path + [node] + [next]);
  }

  /** One search: the graph is fixed, `visited` is shared by every recursive call. */
  class CycleSearch {
    const graph: Graph
    var visited: set<Id>

    constructor (graph: Graph)
      ensures this.graph == graph && visited == {}
    {
      this.graph := graph;
      visited := {};
    }

    ghost predicate Consistent(path: seq<Id>)
      reads this
    {
      && PathNodes(path) <= visited <= Nodes(graph)
      && Finished(graph, visited - PathNodes(path))
    }

    method FindCycle(node: Id, path: seq<Id>) returns (result: SearchResult)
      requires node in Nodes(graph) && Extends(graph, path, node) && Consistent(path)
      modifies this
      ensures old(visited) <= visited
      ensures result.Found? ==> IsCycle(graph, result.cycle)
      ensures result.NoCycle? ==> Consistent(path) && node in visited && node !in path
      decreases Nodes(graph) - visited
    {
      if node in path {
        CutCycle(graph, path, node);
        return Found(path[FirstIndex(path, node)..] + [node]);
      }
      if node in visited {
        return NoCycle;
      }
      EnterNode(visited, path, node);
      visited := visited + {node};
      var here := path + [node];

      var todo := if node in graph then graph[node] else {};
      ghost var explored := {};
      while todo != {}
        invariant old(visited) + {node} <= visited
        invariant explored + todo == Next(graph, node)
        invariant Consistent(here)
        invariant explored <= visited - PathNodes(here)
        decreases |todo|
      {
        var dependency :| dependency in todo;
        todo := todo - {dependency};
        StepFurther(graph, path, node, dependency);
        var inner := FindCycle(dependency, here);
        if inner.Found? {
          return inner;
        }
        explored := explored + {dependency};
      }
      FinishNode(graph, visited - PathNodes(here), node);
      LeaveNode(visited, path, node);
      return NoCycle;
    }
  }

  /**
   The whole rule. It reports a violation exactly when some modules consume from each other in a
   circle, reports one at most, and the violation carries such a circle, from the module it names.
   */
  method CheckCircularDependencies(designs: seq<Design>) returns (violations: seq<Violation>)
    ensures |violations| <= 1
    ensures violations == [] <==> forall c :: !IsCyclicList(designs, c)
    ensures forall v :: v in violations ==> IsCyclicList(designs, v.cycle) && v.moduleId == v.cycle[0]
    ensures forall v :: v in violations ==> exists i :: 0 <= i < |designs| && designs[i].moduleId == v.moduleId
  {
    var graph := BuildGraph(designs);
    AcyclicIffNoCyclicList(designs);
    violations := [];
    var search := new CycleSearch(graph);
    var todo := graph.Keys;
    while todo != {}
      invariant search.graph == graph && todo <= graph.Keys
      invariant search.Consistent([])
      invariant graph.Keys - todo <= search.visited
      decreases |todo|
    {
      var moduleId :| moduleId in todo;
      todo := todo - {moduleId};
      if moduleId !in search.visited {
        var result := search.FindCycle(moduleId, []);
        if result.Found? {
          CyclicListIff(designs, result.cycle);
          assert result.cycle[1] in Next(graph, result.cycle[0]);
          GraphHasOnlyDesigns(designs, result.cycle[0]);
          return [CircularDependency(result.cycle[0], result.cycle)];
        }
      }
    }
    assert search.visited - PathNodes([]) == search.visited;
    forall n ensures !Reaches(graph, n, n) {
      if Reaches(graph, n, n) {
        var _ := FirstEdge(graph, n, n);
      }
    }
  }
}
