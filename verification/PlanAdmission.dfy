/**
 Admission of an execution plan: the layered acyclicity check, the transitive producer check,
 and the whole validation of `ExecutionPlan` that runs them in order.
 */
module PlanAdmission {
  import opened Graphs
  import opened WorkItems
  import DeliveryRegistry

  datatype Plan = Plan(
    id: Id,
    goal: string,
    items: seq<WorkItem>,
    templateId: Option<string>,
    processId: string,
    traceId: string,
    scope: string)

  datatype PlanError =
    | BlankField
    | NoItems
    | UnknownScope
    | DuplicateIds
    | ContractErrors
    | UnknownDependency(item: Id)
    | GateWithoutCandidate(item: Id)
    | CyclicDependencies
    | GateOfWrongProducer(item: Id)
    | ProducerNotInPlan(item: Id, ref: ArtifactRef)
    | ProducerNotAwaited(item: Id, ref: ArtifactRef)
    | ProducerSlotMismatch(item: Id, ref: ArtifactRef)
    | ProducerContractMismatch(item: Id, ref: ArtifactRef)

  // ---- Acyclicity in layers ----

  /** No member of `s` lies on a cycle and no dependency leaves it. */
  ghost predicate Layered(g: Graph, s: set<Id>) {
    Closed(g, s) && forall n :: n in s ==> !Reaches(g, n, n)
  }

  lemma AddLayer(g: Graph, s: set<Id>, ready: set<Id>)
    requires Layered(g, s) && ready !! s
    requires forall n :: n in ready ==> Next(g, n) <= s
    ensures Layered(g, s + ready)
  {
    forall n | n in ready ensures !Reaches(g, n, n) {
      if Reaches(g, n, n) {
        var d := FirstEdge(g, n, n);
        ClosedKeepsReachable(g, s, d, n);
      }
    }
  }

  /** The entries still left over, and the nodes resolved so far. */
  ghost predicate LeftOver(g: Graph, dependencies: Graph, resolved: set<Id>) {
    && dependencies.Keys !! resolved && dependencies.Keys + resolved == g.Keys
    && (forall n :: n in dependencies ==> dependencies[n] == g[n])
    && Layered(g, resolved)
  }

  function ReadyLayer(dependencies: Graph, resolved: set<Id>): set<Id> {
    set n | n in dependencies && dependencies[n] <= resolved
  }

  /** It accepts exactly the dependency relations without a cycle whose dependencies are all items. */
  method EnsureAcyclic(items: seq<WorkItem>) returns (accepted: bool)
    ensures accepted <==> Acyclic(DependencyGraph(items)) && Complete(DependencyGraph(items))
  {
    var g := DependencyGraph(items);
    var dependencies := g;
    var resolved: set<Id> := {};
    while dependencies != map[]
      invariant LeftOver(g, dependencies, resolved)
      decreases |dependencies.Keys|
    {
      var ready := ReadyLayer(dependencies, resolved);
      if ready == {} {
        NoReadyLayer(g, dependencies, resolved);
        return false;
      }
      LayerResolved(g, dependencies, resolved);
      resolved := resolved + ready;
      dependencies := dependencies - ready;
    }
    NothingLeftOver(g, dependencies, resolved);
    return true;
  }

  lemma NoReadyLayer(g: Graph, dependencies: Graph, resolved: set<Id>)
    requires LeftOver(g, dependencies, resolved) && dependencies != map[] && ReadyLayer(dependencies, resolved) == {}
    ensures !(Acyclic(g) && Complete(g))
  {
    forall n | n in dependencies.Keys ensures !(g[n] <= resolved) {
      assert n !in ReadyLayer(dependencies, resolved);
    }
    StuckMeansCyclic(g, dependencies.Keys, resolved);
  }

  lemma NothingLeftOver(g: Graph, dependencies: Graph, resolved: set<Id>)
    requires LeftOver(g, dependencies, resolved) && dependencies == map[]
    ensures Acyclic(g) && Complete(g)
  {
    assert resolved == g.Keys;
    AllLayeredIsAcyclic(g);
  }

  lemma AllLayeredIsAcyclic(g: Graph)
    requires Layered(g, g.Keys)
    ensures Acyclic(g) && Complete(g)
  {
    forall n ensures !Reaches(g, n, n) {
      if Reaches(g, n, n) {
        var _ := FirstEdge(g, n, n);
      }
    }
    forall n | n in g ensures g[n] <= g.Keys {
      assert Next(g, n) <= g.Keys;
    }
  }

  /** One round of the loop: the ready layer moves from the left-over entries to the resolved ones. */
  lemma LayerResolved(g: Graph, dependencies: Graph, resolved: set<Id>)
    requires LeftOver(g, dependencies, resolved) && ReadyLayer(dependencies, resolved) != {}
    ensures var ready := ReadyLayer(dependencies, resolved);
      && LeftOver(g, dependencies - ready, resolved + ready)
      && |(dependencies - ready).Keys| < |dependencies.Keys|
  {
    var ready := ReadyLayer(dependencies, resolved);
    AddLayer(g, resolved, ready);
    assert (dependencies - ready).Keys == dependencies.Keys - ready;
    SmallerSet((dependencies - ready).Keys, dependencies.Keys);
  }

  lemma StuckMeansCyclic(g: Graph, left: set<Id>, resolved: set<Id>)
    requires left != {} && left + resolved == g.Keys
    requires forall n :: n in left ==> !(g[n] <= resolved)
    ensures !(Acyclic(g) && Complete(g))
  {
    if Complete(g) {
      forall n | n in left ensures Next(g, n) * left != {} {
        var d :| d in g[n] && d !in resolved;
        assert d in Next(g, n) * left;
      }
      StuckSetMeansCycle(g, left);
    }
  }

  // ---- Transitive producers ----

  /** Every item the one called `id` waits for, directly or not. */
  ghost function AncestorSet(items: seq<WorkItem>, id: Id): set<Id> {
    set n | n in Ids(items) && Reaches(DependencyGraph(items), id, n)
  }

  lemma PopLast(s: seq<Id>)
    requires s != []
    ensures Elements(s) == Elements(s[..|s| - 1]) + {s[|s| - 1]}
  {
    assert s == s[..|s| - 1] + [s[|s| - 1]];
  }

  /** Every edge that leaves the root or a found node ends in a found or a pending one. */
  ghost predicate Explored(g: Graph, root: Id, result: set<Id>, pending: set<Id>) {
    forall m :: m in result + {root} ==> Next(g, m) <= result + pending
  }

  lemma ExploredFindsAll(g: Graph, root: Id, result: set<Id>, n: Id)
    requires Explored(g, root, result, {}) && Reaches(g, root, n)
    ensures n in result
  {
    var first := FirstEdge(g, root, n);
    if first != n {
      ClosedKeepsReachable(g, result, first, n);
    }
  }

  /** The dependencies of an ancestor are ancestors. */
  lemma AncestorStep(items: seq<WorkItem>, item: WorkItem, parent: Id)
    requires UniqueIds(items) && Complete(DependencyGraph(items))
    requires parent in AncestorSet(items, item.id)
    ensures Find(items, parent).Some?
    ensures Next(DependencyGraph(items), parent)
      == Elements(Find(items, parent).value.dependencies) <= AncestorSet(items, item.id)
  {
    var g, found := DependencyGraph(items), Find(items, parent).value;
    ItemEdges(items, found);
    forall n | n in found.dependencies ensures n in AncestorSet(items, item.id) {
      EdgeReaches(g, parent, n);
      ReachesTransitive(g, item.id, parent, n);
    }
  }

  /** The state of the worklist between two steps. */
  ghost predicate Searching(items: seq<WorkItem>, item: WorkItem, result: set<Id>, pending: seq<Id>) {
    && result <= AncestorSet(items, item.id)
    && Elements(pending) <= AncestorSet(items, item.id)
    && Explored(DependencyGraph(items), item.id, result, Elements(pending))
  }

  lemma SearchingStep(items: seq<WorkItem>, item: WorkItem, result: set<Id>, pending: seq<Id>)
    requires UniqueIds(items) && Complete(DependencyGraph(items))
    requires pending != [] && Searching(items, item, result, pending)
    ensures
      var parent, rest := pending[|pending| - 1], pending[..|pending| - 1];
      if parent in result then Searching(items, item, result, rest)
      else
        && parent in AncestorSet(items, item.id)
        && Find(items, parent).Some?
        && Searching(items, item, result + {parent}, rest + Find(items, parent).value.dependencies)
  {
    PopLast(pending);
    var parent, rest := pending[|pending| - 1], pending[..|pending| - 1];
    AncestorStep(items, item, parent);
    var more := Find(items, parent).value.dependencies;
    assert Elements(rest + more) == Elements(rest) + Elements(more);
  }

  lemma SearchingDone(items: seq<WorkItem>, item: WorkItem, result: set<Id>)
    requires Searching(items, item, result, [])
    ensures result == AncestorSet(items, item.id)
  {
    assert Elements([]) == {};
    forall n | n in AncestorSet(items, item.id) ensures n in result {
      ExploredFindsAll(DependencyGraph(items), item.id, result, n);
    }
  }

  /** The last-in-first-out worklist over `pending` finds exactly the transitive dependencies, on cyclic plans too. */
  method Ancestors(items: seq<WorkItem>, item: WorkItem) returns (result: set<Id>)
    requires UniqueIds(items) && item in items && Complete(DependencyGraph(items))
    ensures result == AncestorSet(items, item.id)
  {
    ghost var all := AncestorSet(items, item.id);
    ItemEdges(items, item);
    result := {};
    var pending := item.dependencies;
    while pending != []
      invariant Searching(items, item, result, pending)
      decreases |all - result|, |pending|
    {
      SearchingStep(items, item, result, pending);
      var parent := pending[|pending| - 1];
      pending := pending[..|pending| - 1];
      if parent !in result {
        var found := Find(items, parent).value;
        LessOutside(all, result, result + {parent});
        result := result + {parent};
        pending := pending + found.dependencies;
      }
    }
    SearchingDone(items, item, result);
  }

  lemma ItemEdges(items: seq<WorkItem>, item: WorkItem)
    requires UniqueIds(items) && item in items
    ensures item.id in Ids(items) && Next(DependencyGraph(items), item.id) == DependencySet(item)
    ensures Complete(DependencyGraph(items)) ==>
      forall n :: n in item.dependencies ==> n in AncestorSet(items, item.id)
  {
    var i :| 0 <= i < |items| && items[i] == item;
    DependencyGraphAt(items, i);
    DependencyGraphKeys(items);
    forall n | n in item.dependencies && Complete(DependencyGraph(items)) ensures n in AncestorSet(items, item.id) {
      EdgeReaches(DependencyGraph(items), item.id, n);
    }
  }

  // ---- Producer and consumer contracts ----

  /** The staged inputs the producer check looks at: those of this plan's own trace. */
  predicate CheckedInput(plan: Plan, ref: ArtifactRef) {
    ref.Staged? && ref.traceId == plan.traceId
  }

  predicate IsContractedIntegration(item: WorkItem) {
    item.mode == Integration && DeliveryRegistry.ContractFor(item).Some?
  }

  predicate GateMatchesProducer(plan: Plan, item: WorkItem) {
    item.mode == QualityGate ==>
      item.candidateFrom.Some? &&
      var producer := Find(plan.items, item.candidateFrom.value);
      producer.Some? && producer.value.mode == Integration && producer.value.publishTarget == item.publishTarget
  }

  predicate DeliversTo(producer: WorkItem, ref: ArtifactRef) {
    && ref.Staged?
    && producer.mode == Partitioned
    && producer.slot == Some(ref.slot)
    && (if producer.artifactKey != "" then producer.artifactKey else producer.outputKey) == ref.key
  }

  predicate SameProtocol(producer: WorkItem, consumer: WorkItem) {
    var theirs, ours := DeliveryRegistry.ContractFor(producer), DeliveryRegistry.ContractFor(consumer);
    theirs.Some? && ours.Some? && theirs.value.outputKind == ours.value.outputKind
  }

  /** The input's producer is an item the consumer waits for, and it delivers just that output. */
  ghost predicate InputIsProduced(plan: Plan, item: WorkItem, ref: ArtifactRef) {
    ref.Staged? &&
    var producer := Find(plan.items, ref.workItemId);
    && producer.Some?
    && Reaches(DependencyGraph(plan.items), item.id, producer.value.id)
    && DeliversTo(producer.value, ref)
    && SameProtocol(producer.value, item)
  }

  ghost predicate EdgesRespected(plan: Plan, item: WorkItem) {
    && GateMatchesProducer(plan, item)
    && (IsContractedIntegration(item) ==>
          forall ref :: ref in item.inputRefs && CheckedInput(plan, ref) ==> InputIsProduced(plan, item, ref))
  }

  // ---- What the edges mean ----

  /** A partition that stages this output, under the same output protocol as its consumer. */
  predicate Stages(producer: WorkItem, ref: ArtifactRef, consumer: WorkItem) {
    var theirs, ours := DeliveryRegistry.ContractFor(producer), DeliveryRegistry.ContractFor(consumer);
    && ref.Staged? && producer.id == ref.workItemId && producer.mode == Partitioned && producer.slot == Some(ref.slot)
    && (producer.artifactKey != "" ==> producer.artifactKey == ref.key)
    && (producer.artifactKey == "" ==> producer.outputKey == ref.key)
    && theirs.Some? && ours.Some? && theirs.value.outputKind == ours.value.outputKind
  }

  /**
   What the edge checks ask for, said of the items: a gate has an integration with its target as
   candidate producer, and every staged input of this trace of a contracted integration is staged
   by an item that the integration waits for.
   */
  lemma EdgesRespectedIff(plan: Plan, item: WorkItem)
    requires UniqueIds(plan.items)
    ensures EdgesRespected(plan, item) <==>
      && (item.mode == QualityGate ==>
            exists producer :: producer in plan.items && item.candidateFrom == Some(producer.id)
              && producer.mode == Integration && producer.publishTarget == item.publishTarget)
      && (item.mode == Integration && DeliveryRegistry.ContractFor(item).Some? ==>
            forall ref :: ref in item.inputRefs && ref.Staged? && ref.traceId == plan.traceId ==>
              exists producer :: producer in plan.items && Stages(producer, ref, item)
                && Reaches(DependencyGraph(plan.items), item.id, producer.id))
  {
    forall producer | producer in plan.items ensures Find(plan.items, producer.id) == Some(producer) {
      var i :| 0 <= i < |plan.items| && plan.items[i] == producer;
      FindAt(plan.items, i);
    }
    forall ref: ArtifactRef | ref.Staged? && DeliveryRegistry.ContractFor(item).Some?
      ensures InputIsProduced(plan, item, ref) <==>
        exists producer :: producer in plan.items && Stages(producer, ref, item)
          && Reaches(DependencyGraph(plan.items), item.id, producer.id)
    {
      InputIsProducedIff(plan, item, ref);
    }
  }

  lemma InputIsProducedIff(plan: Plan, item: WorkItem, ref: ArtifactRef)
    requires UniqueIds(plan.items)
    ensures InputIsProduced(plan, item, ref) <==>
      exists producer :: producer in plan.items && Stages(producer, ref, item)
        && Reaches(DependencyGraph(plan.items), item.id, producer.id)
  {
    if producer :| producer in plan.items && Stages(producer, ref, item) {
      var i :| 0 <= i < |plan.items| && plan.items[i] == producer;
      FindAt(plan.items, i);
    }
  }

  predicate IsEdgeError(e: PlanError) {
    e.GateOfWrongProducer? || e.ProducerNotInPlan? || e.ProducerNotAwaited? || e.ProducerSlotMismatch?
      || e.ProducerContractMismatch?
  }

  method CheckInput(plan: Plan, item: WorkItem, upstream: set<Id>, ref: ArtifactRef) returns (error: Option<PlanError>)
    requires CheckedInput(plan, ref) && upstream == AncestorSet(plan.items, item.id)
    ensures error.None? <==> InputIsProduced(plan, item, ref)
    ensures error.Some? ==> IsEdgeError(error.value)
  {
    var producer := Find(plan.items, ref.workItemId);
    if producer.None? {
      return Some(ProducerNotInPlan(item.id, ref));
    }
    if producer.value.id !in upstream {
      return Some(ProducerNotAwaited(item.id, ref));
    }
    if !DeliversTo(producer.value, ref) {
      return Some(ProducerSlotMismatch(item.id, ref));
    }
    if !SameProtocol(producer.value, item) {
      return Some(ProducerContractMismatch(item.id, ref));
    }
    return None;
  }

  method CheckItemEdges(plan: Plan, item: WorkItem) returns (error: Option<PlanError>)
    requires UniqueIds(plan.items) && item in plan.items && Complete(DependencyGraph(plan.items))
    ensures error.None? <==> EdgesRespected(plan, item)
    ensures error.Some? ==> IsEdgeError(error.value)
  {
    if !GateMatchesProducer(plan, item) {
      return Some(GateOfWrongProducer(item.id));
    }
    if !IsContractedIntegration(item) {
      return None;
    }
    var upstream := Ancestors(plan.items, item);
    error := CheckInputs(plan, item, upstream);
  }

  method CheckInputs(plan: Plan, item: WorkItem, upstream: set<Id>) returns (error: Option<PlanError>)
    requires upstream == AncestorSet(plan.items, item.id)
    ensures error.None? <==>
      forall ref :: ref in item.inputRefs && CheckedInput(plan, ref) ==> InputIsProduced(plan, item, ref)
    ensures error.Some? ==> IsEdgeError(error.value)
  {
    for i := 0 to |item.inputRefs|
      invariant forall k :: 0 <= k < i && CheckedInput(plan, item.inputRefs[k])
                  ==> InputIsProduced(plan, item, item.inputRefs[k])
    {
      if CheckedInput(plan, item.inputRefs[i]) {
        error := CheckInput(plan, item, upstream, item.inputRefs[i]);
        if error.Some? {
          return;
        }
      }
    }
    return None;
  }

  method ValidateArtifactEdges(plan: Plan) returns (error: Option<PlanError>)
    requires UniqueIds(plan.items) && Complete(DependencyGraph(plan.items))
    ensures error.None? <==> forall item :: item in plan.items ==> EdgesRespected(plan, item)
    ensures error.Some? ==> IsEdgeError(error.value)
  {
    for i := 0 to |plan.items|
      invariant forall k :: 0 <= k < i ==> EdgesRespected(plan, plan.items[k])
    {
      error := CheckItemEdges(plan, plan.items[i]);
      if error.Some? {
        return;
      }
    }
    return None;
  }

  // ---- The whole validation ----

  predicate HeaderValid(plan: Plan) {
    && !Blank(plan.id) && !Blank(plan.goal) && !Blank(plan.processId)
    && (plan.templateId.Some? ==> !Blank(plan.templateId.value))
    && plan.items != []
    && plan.scope in {"full_delivery", "architecture", "vertical_slice"}
  }

  /** An admitted plan is named, has a goal, a process and items, and one of the three scopes. */
  lemma HeaderValidIff(plan: Plan)
    ensures HeaderValid(plan) <==>
      && (exists c :: c in plan.id && !IsSpace(c)) && (exists c :: c in plan.goal && !IsSpace(c))
      && (exists c :: c in plan.processId && !IsSpace(c))
      && (plan.templateId.Some? ==> exists c :: c in plan.templateId.value && !IsSpace(c))
      && |plan.items| > 0
      && (plan.scope == "full_delivery" || plan.scope == "architecture" || plan.scope == "vertical_slice")
  {
  }

  predicate KnownDependencies(items: seq<WorkItem>) {
    forall i :: 0 <= i < |items| ==> DependencySet(items[i]) <= Ids(items)
  }

  predicate GatesAwaitCandidates(items: seq<WorkItem>) {
    forall i :: 0 <= i < |items| && items[i].mode == QualityGate ==>
      items[i].candidateFrom.Some? && items[i].candidateFrom.value in items[i].dependencies
  }

  /** What an admitted plan promises, read off the plan alone. */
  ghost predicate Admissible(plan: Plan) {
    && HeaderValid(plan)
    && UniqueIds(plan.items)
    && DeliveryRegistry.ContractsRespected(plan.items)
    && KnownDependencies(plan.items)
    && GatesAwaitCandidates(plan.items)
    && Acyclic(DependencyGraph(plan.items))
    && forall item :: item in plan.items ==> EdgesRespected(plan, item)
  }

  lemma KnownDependenciesComplete(items: seq<WorkItem>)
    requires UniqueIds(items)
    ensures KnownDependencies(items) <==> Complete(DependencyGraph(items))
  {
    DependencyGraphKeys(items);
    forall i | 0 <= i < |items| ensures DependencyGraph(items)[items[i].id] == DependencySet(items[i]) {
      DependencyGraphAt(items, i);
    }
    assert forall i :: 0 <= i < |items| ==> items[i].id in Ids(items);
  }

  method CheckDependencies(items: seq<WorkItem>) returns (error: Option<PlanError>)
    ensures error.None? <==> KnownDependencies(items) && GatesAwaitCandidates(items)
    ensures error.Some? ==> error.value.UnknownDependency? || error.value.GateWithoutCandidate?
  {
    for i := 0 to |items|
      invariant forall k :: 0 <= k < i ==> DependencySet(items[k]) <= Ids(items)
      invariant forall k :: 0 <= k < i && items[k].mode == QualityGate ==>
        items[k].candidateFrom.Some? && items[k].candidateFrom.value in items[k].dependencies
    {
      if !(DependencySet(items[i]) <= Ids(items)) {
        return Some(UnknownDependency(items[i].id));
      }
      if items[i].mode == QualityGate
         && (items[i].candidateFrom.None? || items[i].candidateFrom.value !in items[i].dependencies) {
        return Some(GateWithoutCandidate(items[i].id));
      }
    }
    return None;
  }

  predicate HasDuplicateIds(items: seq<WorkItem>) {
    exists i, j :: 0 <= i < j < |items| && items[i].id == items[j].id
  }

  /** A plan is accepted exactly when it is admissible; a cycle is reported exactly when nothing before it is wrong. */
  method ValidatePlan(plan: Plan) returns (error: Option<PlanError>)
    ensures error.None? <==> Admissible(plan)
    ensures error == Some(DuplicateIds) <==> HeaderValid(plan) && !UniqueIds(plan.items)
    ensures error == Some(ContractErrors) <==>
      HeaderValid(plan) && UniqueIds(plan.items) && !DeliveryRegistry.ContractsRespected(plan.items)
    ensures error == Some(CyclicDependencies) <==>
      && HeaderValid(plan) && UniqueIds(plan.items) && DeliveryRegistry.ContractsRespected(plan.items)
      && KnownDependencies(plan.items) && GatesAwaitCandidates(plan.items) && !Acyclic(DependencyGraph(plan.items))
  {
    if Blank(plan.id) || Blank(plan.goal) {
      return Some(BlankField);
    }
    if plan.items == [] {
      return Some(NoItems);
    }
    if (plan.templateId.Some? && Blank(plan.templateId.value)) || Blank(plan.processId) {
      return Some(BlankField);
    }
    if plan.scope !in {"full_delivery", "architecture", "vertical_slice"} {
      return Some(UnknownScope);
    }
    if HasDuplicateIds(plan.items) {
      return Some(DuplicateIds);
    }
    var contractErrors := DeliveryRegistry.ValidatePlan(plan.items);
    if contractErrors != [] {
      return Some(ContractErrors);
    }
    error := CheckDependencies(plan.items);
    if error.Some? {
      return;
    }
    KnownDependenciesComplete(plan.items);
    var acyclic := EnsureAcyclic(plan.items);
    if !acyclic {
      return Some(CyclicDependencies);
    }
    error := ValidateArtifactEdges(plan);
  }
}
