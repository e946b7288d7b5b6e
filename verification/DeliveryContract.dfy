/**
 The delivery contract of a project: every artifact has an owner node, and every consumer must
 depend on that owner. `depends_on` is a depth-first search that shares one `seen` set between
 all recursive calls and stops at the first success.
 */
module DeliveryContract {
  import opened Graphs
  import opened WorkItems

  datatype Artifact = Artifact(path: string, owner: string, consumers: seq<string>)

  datatype Contract = Contract(artifacts: seq<Artifact>, enforceOrder: bool)

  datatype ContractError =
    | MissingOwners(owners: set<string>)
    | UnknownConsumer(path: string, consumer: string)
    | NotDependent(path: string, consumer: string, owner: string)

  // ---- Resolution of role names ----

  /** The adapter that is used when a caller passes no bindings. */
  const CANONICAL_BINDINGS: map<string, Id> := map[
    "project-documents" := "wi-project-documents",
    "environment" := "wi-environment",
    "code-integration" := "wi-code-integration",
    "code" := "wi-code-integration",
    "tests" := "wi-tests",
    "test" := "wi-tests",
    "review" := "wi-review"]

  function Effective(bindings: map<string, Id>): map<string, Id> {
    if bindings == map[] then CANONICAL_BINDINGS else bindings
  }

  function Resolve(bindings: map<string, Id>, items: seq<WorkItem>, token: string): Option<Id> {
    var candidate := if token in bindings then bindings[token] else token;
    if candidate in Ids(items) then Some(candidate) else None
  }

  /** A dependency that resolves to no item, or to the empty name, keeps its own name. */
  function ResolvedDependency(bindings: map<string, Id>, items: seq<WorkItem>, dependency: Id): Id {
    var resolved := Resolve(bindings, items, dependency);
    if resolved.Some? && resolved.value != "" then resolved.value else dependency
  }

  /** The graph that is searched: resolved dependencies, the last of several items with one id. */
  function ResolvedGraph(bindings: map<string, Id>, all: seq<WorkItem>, items: seq<WorkItem>): Graph {
    if items == [] then map[] else
      var last := items[|items| - 1];
      ResolvedGraph(bindings, all, items[..|items| - 1])[last.id :=
          set d | d in last.dependencies :: ResolvedDependency(bindings, all, d)]
  }

  // ---- The search ----

  class DependencySearch {
    const graph: Graph
    var seen: set<Id>

    constructor (graph: Graph)
      ensures this.graph == graph && seen == {}
    {
      this.graph := graph;
      seen := {};
    }

    /** The nodes seen since `before`, other than `open`, are exhausted: no edge to the owner, none to the unseen. */
    ghost predicate Exhausted(before: set<Id>, open: set<Id>, owner: Id)
      reads this
    {
      forall v :: v in seen - before - open ==> owner !in Next(graph, v) && Next(graph, v) <= seen
    }

    method DependsOn(consumer: Id, owner: Id) returns (found: bool)
      requires consumer in Nodes(graph) && seen <= Nodes(graph)
      modifies this
      ensures old(seen) <= seen <= Nodes(graph)
      ensures found ==> Reaches(graph, consumer, owner)
      ensures !found ==> consumer in seen && Exhausted(old(seen), {}, owner)
      decreases Nodes(graph) - seen
    {
      if consumer in seen {
        return false;
      }
      seen := seen + {consumer};
      var direct := if consumer in graph then graph[consumer] else {};
      if owner in direct {
        EdgeReaches(graph, consumer, owner);
        return true;
      }
      var todo := direct;
      while todo != {}
        invariant todo <= direct && old(seen) + {consumer} <= seen <= Nodes(graph)
        invariant Exhausted(old(seen), {consumer}, owner)
        invariant direct - todo <= seen
        decreases |todo|
      {
        var parent :| parent in todo;
        ghost var before, asked := seen, direct - todo;
        todo := todo - {parent};
        assert direct - todo == asked + {parent};
        found := DependsOn(parent, owner);
        if found {
          EdgeThenReaches(graph, consumer, parent, owner);
          return;
        }
        assert forall v :: v in seen - old(seen) - {consumer}
                 ==> v in before - old(seen) - {consumer} || v in seen - before - {};
      }
      found := false;
    }
  }

  /** An exhausted search from nothing seen has met everything the consumer reaches, and not the owner. */
  lemma ExhaustedMeansUnreachable(g: Graph, seen: set<Id>, consumer: Id, owner: Id)
    requires consumer in seen && forall v :: v in seen ==> owner !in Next(g, v) && Next(g, v) <= seen
    ensures !Reaches(g, consumer, owner)
  {
    if Reaches(g, consumer, owner) {
      var last := LastEdge(g, consumer, owner);
      if last != consumer {
        ClosedKeepsReachable(g, seen, consumer, last);
      }
    }
  }

  /** True exactly when a dependency path of one or more edges leads to the owner, on cyclic graphs too. */
  method DependsOn(g: Graph, consumer: Id, owner: Id) returns (found: bool)
    ensures found <==> Reaches(g, consumer, owner)
  {
    if consumer !in g {
      if Reaches(g, consumer, owner) {
        var _ := FirstEdge(g, consumer, owner);
      }
      return false;
    }
    var search := new DependencySearch(g);
    found := search.DependsOn(consumer, owner);
    if !found {
      assert search.seen - {} - {} == search.seen;
      ExhaustedMeansUnreachable(g, search.seen, consumer, owner);
    }
  }

  // ---- The whole validation ----

  ghost predicate ConsumerServed(c: Contract, b: map<string, Id>, items: seq<WorkItem>, artifact: Artifact,
                                 token: string) {
    var owner, consumer := Resolve(b, items, artifact.owner), Resolve(b, items, token);
    && owner.Some? && consumer.Some?
    && (c.enforceOrder ==> Reaches(ResolvedGraph(b, items, items), consumer.value, owner.value))
  }

  ghost predicate ContractHolds(c: Contract, b: map<string, Id>, items: seq<WorkItem>) {
    forall i :: 0 <= i < |c.artifacts| ==>
      && Resolve(b, items, c.artifacts[i].owner).Some?
      && forall k :: 0 <= k < |c.artifacts[i].consumers|
           ==> ConsumerServed(c, b, items, c.artifacts[i], c.artifacts[i].consumers[k])
  }

  method CheckConsumers(c: Contract, b: map<string, Id>, items: seq<WorkItem>, artifact: Artifact)
    returns (error: Option<ContractError>)
    requires Resolve(b, items, artifact.owner).Some?
    ensures error.None? <==>
      forall k :: 0 <= k < |artifact.consumers| ==> ConsumerServed(c, b, items, artifact, artifact.consumers[k])
    ensures error.Some? ==> !error.value.MissingOwners?
  {
    var owner := Resolve(b, items, artifact.owner).value;
    for i := 0 to |artifact.consumers|
      invariant forall k :: 0 <= k < i ==> ConsumerServed(c, b, items, artifact, artifact.consumers[k])
    {
      var consumer := Resolve(b, items, artifact.consumers[i]);
      if consumer.None? {
        return Some(UnknownConsumer(artifact.path, artifact.consumers[i]));
      }
      if c.enforceOrder {
        var depends := DependsOn(ResolvedGraph(b, items, items), consumer.value, owner);
        if !depends {
          return Some(NotDependent(artifact.path, artifact.consumers[i], artifact.owner));
        }
      }
    }
    return None;
  }

  /**
   Validation returns normally exactly when every owner and consumer resolves and, where the
   order is enforced, every consumer transitively depends on its owner.
   */
  method ValidatePlan(c: Contract, items: seq<WorkItem>, bindings: map<string, Id>)
    returns (error: Option<ContractError>)
    ensures error.None? <==> ContractHolds(c, Effective(bindings), items)
    ensures error.Some? && error.value.MissingOwners? ==>
      error.value.owners == set i | 0 <= i < |c.artifacts|
                              && Resolve(Effective(bindings), items, c.artifacts[i].owner).None? :: c.artifacts[i].owner
  {
    var b := Effective(bindings);
    var missing :=
        set i | 0 <= i < |c.artifacts| && Resolve(b, items, c.artifacts[i].owner).None? :: c.artifacts[i].owner;
    if missing != {} {
      return Some(MissingOwners(missing));
    }
    assert forall i :: 0 <= i < |c.artifacts| && Resolve(b, items, c.artifacts[i].owner).None?
             ==> c.artifacts[i].owner in missing;
    for i := 0 to |c.artifacts|
      invariant forall j :: 0 <= j < i ==>
        forall k :: 0 <= k < |c.artifacts[j].consumers|
          ==> ConsumerServed(c, b, items, c.artifacts[j], c.artifacts[j].consumers[k])
    {
      error := CheckConsumers(c, b, items, c.artifacts[i]);
      if error.Some? {
        return;
      }
    }
    return None;
  }

  // ---- What the names stand for ----

  /** The name stands for this item: through its binding, if it has one, else by itself. */
  predicate StandsFor(b: map<string, Id>, items: seq<WorkItem>, token: string, id: Id) {
    && (token in b ==> b[token] == id) && (token !in b ==> token == id)
    && exists i :: 0 <= i < |items| && items[i].id == id
  }

  lemma ResolveIff(b: map<string, Id>, items: seq<WorkItem>, token: string, id: Id)
    ensures Resolve(b, items, token) == Some(id) <==> StandsFor(b, items, token, id)
  {
  }

  /** An edge leads to the item a declared dependency stands for, and else to the declared name itself. */
  ghost predicate Declares(b: map<string, Id>, items: seq<WorkItem>, item: WorkItem, d: Id) {
    exists name :: name in item.dependencies
      && if exists id :: StandsFor(b, items, name, id) && id != "" then StandsFor(b, items, name, d) else d == name
  }

  lemma {:induction false} ResolvedEdgeIff(b: map<string, Id>, all: seq<WorkItem>, items: seq<WorkItem>, i: nat, d: Id)
    requires i < |items| && forall j :: i < j < |items| ==> items[j].id != items[i].id
    ensures d in Next(ResolvedGraph(b, all, items), items[i].id) <==> Declares(b, all, items[i], d)
  {
    var last := |items| - 1;
    if i < last {
      ResolvedEdgeIff(b, all, items[..last], i, d);
    } else {
      forall name ensures ResolvedDependency(b, all, name) == d
          <==> if exists id :: StandsFor(b, all, name, id) && id != "" then StandsFor(b, all, name, d) else d == name
      {
        ResolvedDependencyIff(b, all, name, d);
      }
    }
  }

  lemma ResolvedDependencyIff(b: map<string, Id>, items: seq<WorkItem>, name: Id, d: Id)
    ensures ResolvedDependency(b, items, name) == d
      <==> if exists id :: StandsFor(b, items, name, id) && id != "" then StandsFor(b, items, name, d) else d == name
  {
    var candidate := if name in b then b[name] else name;
    ResolveIff(b, items, name, candidate);
    assert forall id :: StandsFor(b, items, name, id) ==> id == candidate;
  }

  predicate IsKnown(b: map<string, Id>, items: seq<WorkItem>, token: string) {
    exists id :: id in Ids(items) && StandsFor(b, items, token, id)
  }

  /** The consumer's item reaches the owner's, where the order is enforced. */
  ghost predicate Awaits(c: Contract, b: map<string, Id>, items: seq<WorkItem>, owner: string, consumer: string) {
    forall o, m :: StandsFor(b, items, owner, o) && StandsFor(b, items, consumer, m) && c.enforceOrder
      ==> Reaches(ResolvedGraph(b, items, items), m, o)
  }

  lemma KnownIff(b: map<string, Id>, items: seq<WorkItem>, token: string)
    ensures Resolve(b, items, token).Some? <==> IsKnown(b, items, token)
    ensures forall id :: StandsFor(b, items, token, id) <==> Resolve(b, items, token) == Some(id)
  {
    forall id ensures StandsFor(b, items, token, id) <==> Resolve(b, items, token) == Some(id) {
      ResolveIff(b, items, token, id);
    }
  }

  /**
   A contract holds if and only if every owner and every consumer stands for an item and, where
   the order is enforced, each consumer's item reaches the owner's. The bindings of the caller
   count, unless there are none.
   */
  lemma ContractHoldsIff(c: Contract, bindings: map<string, Id>, items: seq<WorkItem>)
    ensures var b := if bindings.Keys == {} then CANONICAL_BINDINGS else bindings;
      ContractHolds(c, Effective(bindings), items) <==> forall artifact :: artifact in c.artifacts ==>
        && IsKnown(b, items, artifact.owner)
        && forall token :: token in artifact.consumers ==>
          IsKnown(b, items, token) && Awaits(c, b, items, artifact.owner, token)
  {
    assert bindings.Keys == {} <==> bindings == map[];
    ContractHoldsIn(c, Effective(bindings), items);
  }

  lemma ContractHoldsIn(c: Contract, b: map<string, Id>, items: seq<WorkItem>)
    ensures ContractHolds(c, b, items) <==> forall artifact :: artifact in c.artifacts ==>
      && IsKnown(b, items, artifact.owner)
      && forall token :: token in artifact.consumers ==>
        IsKnown(b, items, token) && Awaits(c, b, items, artifact.owner, token)
  {
    forall token ensures Resolve(b, items, token).Some? <==> IsKnown(b, items, token) {
      KnownIff(b, items, token);
    }
    forall artifact, token
      ensures ConsumerServed(c, b, items, artifact, token) <==>
        IsKnown(b, items, artifact.owner) && IsKnown(b, items, token) && Awaits(c, b, items, artifact.owner, token)
    {
      KnownIff(b, items, artifact.owner);
      KnownIff(b, items, token);
    }
  }

  // ---- The project delivery contract ----

  const PROJECT_DELIVERY := Contract([
    Artifact("requirement.md", "project-documents", []),
    Artifact("architecture.md", "project-documents", []),
    Artifact("architecture_contract.md", "project-documents", []),
    Artifact("schemas.json", "project-documents", ["code", "test", "code-integration"]),
    Artifact("tasks.md", "project-documents", []),
    Artifact("environment.md", "environment", ["tests", "review"]),
    Artifact("implementation.md", "code-integration", ["tests", "review"]),
    Artifact("tests.md", "tests", ["review"]),
    Artifact("review.md", "review", [])], false)

  /** Without bindings of its own it asks for exactly the five canonical items, whatever their order. */
  lemma ProjectDeliveryNeedsCanonicalItems(items: seq<WorkItem>)
    ensures ContractHolds(PROJECT_DELIVERY, Effective(map[]), items)
      <==> {"wi-project-documents", "wi-environment", "wi-code-integration", "wi-tests", "wi-review"} <= Ids(items)
  {
    var a := PROJECT_DELIVERY.artifacts;
    if ContractHolds(PROJECT_DELIVERY, CANONICAL_BINDINGS, items) {
      assert Resolve(CANONICAL_BINDINGS, items, a[0].owner).Some?;
      assert Resolve(CANONICAL_BINDINGS, items, a[5].owner).Some?;
      assert Resolve(CANONICAL_BINDINGS, items, a[6].owner).Some?;
      assert Resolve(CANONICAL_BINDINGS, items, a[7].owner).Some?;
      assert Resolve(CANONICAL_BINDINGS, items, a[8].owner).Some?;
    }
  }
}
