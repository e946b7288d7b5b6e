/**
 Every run of an admitted plan: results are recorded for ready items, and for the environment item
 as soon as the environment is prepared; recovery takes away the dependents of some items, and a
 load replaces the results by what the resume pipeline makes of whatever checkpoints, log and
 records it finds.
 */
module PlanRuns {
  import opened Graphs
  import opened WorkItems
  import opened PlanAdmission
  import opened Resume
  import opened ResumeTheorems
  import DeliveryRegistry

  type Results = map<Id, Status>

  function CompletedIds(r: Results): set<Id> {
    set n | n in r && r[n] == Completed
  }

  /** `ready_items`: no result yet, and every dependency completed. */
  function Ready(items: seq<WorkItem>, r: Results): set<Id> {
    set i | 0 <= i < |items| && items[i].id !in r && DependencySet(items[i]) <= CompletedIds(r) :: items[i].id
  }

  // ---- A run can never be stuck ----

  /** Some item outside `done` waits for nothing outside `done`. */
  ghost predicate HasReadyItem(g: Graph, done: set<Id>) {
    exists n :: n in g && n !in done && g[n] <= done
  }

  /**
   For a plan whose dependencies are all items, having no cycle is the same as never being
   stuck: whatever proper, dependency-closed part has completed, some item can start next.
   */
  lemma AcyclicIffNeverStuck(g: Graph)
    requires Complete(g)
    ensures Acyclic(g) <==> forall done :: done < g.Keys && Closed(g, done) ==> HasReadyItem(g, done)
  {
    if Acyclic(g) {
      forall done | done < g.Keys ensures HasReadyItem(g, done) {
        ProperPartHasReadyItem(g, done);
      }
    } else {
      var n :| Reaches(g, n, n);
      var first := FirstEdge(g, n, n);
      var done := g.Keys - Dependents(g, g.Keys, {n});
      RemovingDependentsKeepsClosed(g, g.Keys, g.Keys, {n});
      assert n in Dependents(g, g.Keys, {n});
      forall m | m in g && m !in done ensures !(g[m] <= done) {
        var next := if m == n then first else FirstEdgeTo(g, m, n);
        assert next in g[m] && next in Dependents(g, g.Keys, {n});
      }
    }
  }

  lemma ProperPartHasReadyItem(g: Graph, done: set<Id>)
    requires Acyclic(g) && Complete(g) && done < g.Keys
    ensures HasReadyItem(g, done)
  {
    var left := g.Keys - done;
    var first :| first in g && first !in done;
    assert first in left;
    if !HasReadyItem(g, done) {
      forall n | n in left ensures Next(g, n) * left != {} {
        var d :| d in g[n] && d !in done;
        assert d in Next(g, n) * left;
      }
      StuckSetHasCycle(g, left);
    }
  }

  ghost function FirstEdgeTo(g: Graph, a: Id, c: Id): (b: Id)
    requires Reaches(g, a, c)
    ensures b in Next(g, a) && ReachesOrIs(g, b, c)
  {
    var w :| WalkFromTo(g, w, a, c);
    assert |w| > 2 ==> WalkFromTo(g, w[1..], w[1], c);
    w[1]
  }

  /** While every result is a success and some item has none, an admitted plan offers an item to start. */
  lemma ReadyUnlessFinished(plan: Plan, r: Results)
    requires Admissible(plan)
    requires r.Keys < Ids(plan.items) && CompletedIds(r) == r.Keys
    ensures Ready(plan.items, r) != {}
  {
    var g := DependencyGraph(plan.items);
    DependencyGraphKeys(plan.items);
    KnownDependenciesComplete(plan.items);
    ProperPartHasReadyItem(g, r.Keys);
    var n :| n in g && n !in r.Keys && g[n] <= r.Keys;
    var i :| 0 <= i < |plan.items| && plan.items[i].id == n;
    DependencyGraphAt(plan.items, i);
    assert plan.items[i].id in Ready(plan.items, r);
  }

  // ---- What every step keeps ----

  datatype Step =
    | Record(item: Id, status: Status)
    | Prepare
    | Invalidate(seeds: set<Id>)
    | Load(input: ResumeInput, events: seq<Event>)

  function Statuses(v: StateView): Results {
    map n | n in v.results :: v.results[n].status
  }

  /** The item whose result the runner records itself: the first one of the bootstrap agent, if any. */
  function EnvironmentIds(items: seq<WorkItem>): set<Id> {
    if items == [] then {}
    else if items[0].agentId == "bootstrap_agent" then {items[0].id}
    else EnvironmentIds(items[1..])
  }

  /**
   One step of a run. `Record` may only name a ready item; the items of a batch are recorded one
   after the other, and stay ready until then. `Prepare` completes the environment item without
   looking at its dependencies. `Load` may bring back what an earlier step took away.
   */
  ghost predicate IsStep(plan: Plan, r: Results, step: Step, r': Results) {
    match step
    case Record(item, status) => item in Ready(plan.items, r) && r' == r[item := status]
    case Prepare => exists p :: p in EnvironmentIds(plan.items) && p !in r && r' == r[p := Completed]
    case Invalidate(seeds) => r' == r - Dependents(DependencyGraph(plan.items), Ids(plan.items), seeds)
    case Load(input, events) =>
      ResumePlan(input) == plan && WellFormedInput(input) && r' == Statuses(Resumed(input, events))
  }

  ghost predicate IsRun(plan: Plan, states: seq<Results>, steps: seq<Step>) {
    && |states| == |steps| + 1
    && states[0] == map[]
    && forall k :: 0 <= k < |steps| ==> IsStep(plan, states[k], steps[k], states[k + 1])
  }

  /** Only items have results, and completion is closed under dependency except at the environment item. */
  ghost predicate Consistent(plan: Plan, r: Results) {
    r.Keys <= Ids(plan.items) && ClosedExcept(DependencyGraph(plan.items), CompletedIds(r), EnvironmentIds(plan.items))
  }

  lemma {:induction false} EnvironmentIsAnItem(items: seq<WorkItem>)
    ensures EnvironmentIds(items) <= Ids(items)
    ensures forall p, q :: p in EnvironmentIds(items) && q in EnvironmentIds(items) ==> p == q
  {
    if items != [] {
      EnvironmentIsAnItem(items[1..]);
      assert items[0].id in Ids(items);
      assert forall i :: 0 <= i < |items[1..]| ==> items[1..][i] == items[i + 1];
    }
  }

  lemma LoadIsConsistent(input: ResumeInput, events: seq<Event>)
    requires UniqueIds(ResumePlan(input).items) && WellFormedInput(input)
    ensures Consistent(ResumePlan(input), Statuses(Resumed(input, events)))
  {
    ResumeIsSound(input, events);
    ResumedIsWellKeyed(input, events);
    StatusesConsistent(ResumePlan(input), Resumed(input, events));
  }

  lemma StatusesConsistent(plan: Plan, v: StateView)
    requires WellKeyed(plan, v) && AllCompleted(v) && Closed(DependencyGraph(plan.items), v.results.Keys)
    ensures Consistent(plan, Statuses(v))
  {
    assert CompletedIds(Statuses(v)) == v.results.Keys;
  }

  lemma RecordKeepsConsistent(plan: Plan, r: Results, item: Id, status: Status)
    requires UniqueIds(plan.items) && Consistent(plan, r) && item in Ready(plan.items, r)
    ensures Consistent(plan, r[item := status])
  {
    var i :| 0 <= i < |plan.items| && plan.items[i].id == item && DependencySet(plan.items[i]) <= CompletedIds(r);
    DependencyGraphAt(plan.items, i);
    assert CompletedIds(r[item := status]) == CompletedIds(r) + if status == Completed then {item} else {};
  }

  lemma PrepareKeepsConsistent(plan: Plan, r: Results, p: Id)
    requires Consistent(plan, r) && p in EnvironmentIds(plan.items)
    ensures Consistent(plan, r[p := Completed])
  {
    EnvironmentIsAnItem(plan.items);
    assert CompletedIds(r[p := Completed]) == CompletedIds(r) + {p};
  }

  lemma InvalidateKeepsConsistent(plan: Plan, r: Results, seeds: set<Id>)
    requires Consistent(plan, r)
    ensures Consistent(plan, r - Dependents(DependencyGraph(plan.items), Ids(plan.items), seeds))
  {
    var stale := Dependents(DependencyGraph(plan.items), Ids(plan.items), seeds);
    RemovingDependentsKeepsClosedExcept(DependencyGraph(plan.items), Ids(plan.items), CompletedIds(r),
                                        EnvironmentIds(plan.items), seeds);
    assert CompletedIds(r - stale) == CompletedIds(r) - stale;
  }

  lemma StepKeepsConsistent(plan: Plan, r: Results, step: Step, r': Results)
    requires UniqueIds(plan.items) && Consistent(plan, r) && IsStep(plan, r, step, r')
    ensures Consistent(plan, r')
  {
    match step
    case Record(item, status) => RecordKeepsConsistent(plan, r, item, status);
    case Prepare =>
      var p :| p in EnvironmentIds(plan.items) && p !in r && r' == r[p := Completed];
      PrepareKeepsConsistent(plan, r, p);
    case Invalidate(seeds) => InvalidateKeepsConsistent(plan, r, seeds);
    case Load(input, events) => LoadIsConsistent(input, events);
  }

  lemma NothingIsConsistent(plan: Plan)
    ensures Consistent(plan, map[])
  {
    assert CompletedIds(map[]) == {};
  }

  lemma {:induction false} RunKeepsConsistent(plan: Plan, states: seq<Results>, steps: seq<Step>, k: nat)
    requires UniqueIds(plan.items) && IsRun(plan, states, steps) && k <= |steps|
    ensures Consistent(plan, states[k])
  {
    if k == 0 {
      NothingIsConsistent(plan);
    } else {
      RunKeepsConsistent(plan, states, steps, k - 1);
      RunStepKeepsConsistent(plan, states, steps, k - 1);
    }
  }

  lemma RunStepKeepsConsistent(plan: Plan, states: seq<Results>, steps: seq<Step>, k: nat)
    requires UniqueIds(plan.items) && IsRun(plan, states, steps) && k < |steps| && Consistent(plan, states[k])
    ensures Consistent(plan, states[k + 1])
  {
    StepKeepsConsistent(plan, states[k], steps[k], states[k + 1]);
  }

  /** Recording one item of a batch leaves the others ready, so what holds at the start of the batch holds for each. */
  lemma BatchStaysReady(items: seq<WorkItem>, r: Results, recorded: Id, status: Status, n: Id)
    requires recorded in Ready(items, r) && n in Ready(items, r) && n != recorded
    ensures n in Ready(items, r[recorded := status])
  {
    var i :| 0 <= i < |items| && items[i].id == n && items[i].id !in r && DependencySet(items[i]) <= CompletedIds(r);
    assert recorded !in r && CompletedIds(r) <= CompletedIds(r[recorded := status]);
  }

  // ---- What has completed when an item starts ----

  /** `n` is awaited through the environment item, which may have been recorded before its own dependencies. */
  ghost predicate AwaitedThroughEnvironment(plan: Plan, item: Id, n: Id) {
    var g := DependencyGraph(plan.items);
    exists p :: p in EnvironmentIds(plan.items) && Reaches(g, item, p) && Reaches(g, p, n)
  }

  lemma ReadyDependencies(items: seq<WorkItem>, r: Results, item: Id)
    requires UniqueIds(items) && item in Ready(items, r)
    ensures Next(DependencyGraph(items), item) <= CompletedIds(r)
  {
    var i :| 0 <= i < |items| && items[i].id == item && DependencySet(items[i]) <= CompletedIds(r);
    DependencyGraphAt(items, i);
  }

  /** What a ready item waits for has completed, unless it waits for it through the environment item. */
  lemma MissingOnlyThroughEnvironment(plan: Plan, states: seq<Results>, steps: seq<Step>, k: nat, item: Id, n: Id)
    requires UniqueIds(plan.items) && IsRun(plan, states, steps)
    requires k <= |steps| && item in Ready(plan.items, states[k])
    requires Reaches(DependencyGraph(plan.items), item, n) && n !in CompletedIds(states[k])
    ensures AwaitedThroughEnvironment(plan, item, n)
  {
    var g, done := DependencyGraph(plan.items), CompletedIds(states[k]);
    RunKeepsConsistent(plan, states, steps, k);
    ReadyDependencies(plan.items, states[k], item);
    var first := FirstEdge(g, item, n);
    assert first in done;
    LeavesThroughExempt(g, done, EnvironmentIds(plan.items), first, n);
    var p :| p in EnvironmentIds(plan.items) && ReachesOrIs(g, first, p) && Reaches(g, p, n);
    EdgeThenReaches(g, item, first, p);
  }

  ghost predicate AncestorsCompleted(plan: Plan, r: Results, item: Id) {
    forall n :: Reaches(DependencyGraph(plan.items), item, n) ==> n in CompletedIds(r)
  }

  /**
   When an item is ready, everything it waits for, directly or not, has completed if and only if
   it does not wait for the environment item, or the environment item's own ancestors have all completed.
   */
  lemma AncestorsCompleteBeforeStart(plan: Plan, states: seq<Results>, steps: seq<Step>, k: nat, item: Id)
    requires UniqueIds(plan.items) && IsRun(plan, states, steps)
    requires k <= |steps| && item in Ready(plan.items, states[k])
    ensures AncestorsCompleted(plan, states[k], item) <==>
      forall p :: p in EnvironmentIds(plan.items) && Reaches(DependencyGraph(plan.items), item, p)
        ==> AncestorsCompleted(plan, states[k], p)
  {
    var g := DependencyGraph(plan.items);
    forall p, n | AncestorsCompleted(plan, states[k], item) && Reaches(g, item, p) && Reaches(g, p, n)
      ensures n in CompletedIds(states[k])
    {
      ReachesTransitive(g, item, p, n);
    }
    forall n | Reaches(g, item, n) && n !in CompletedIds(states[k])
      ensures exists p :: p in EnvironmentIds(plan.items) && Reaches(g, item, p)
                && !AncestorsCompleted(plan, states[k], p)
    {
      MissingOnlyThroughEnvironment(plan, states, steps, k, item, n);
      var p :| p in EnvironmentIds(plan.items) && Reaches(g, item, p) && Reaches(g, p, n);
      assert !AncestorsCompleted(plan, states[k], p);
    }
  }

  /** A staged input of this trace. */
  predicate IsStagedInput(plan: Plan, item: WorkItem, ref: ArtifactRef) {
    ref in item.inputRefs && ref.Staged? && ref.traceId == plan.traceId
  }

  /** A producer in the plan stages exactly this output, under the consumer's protocol, and has completed. */
  ghost predicate ProducerCompleted(plan: Plan, r: Results, ref: ArtifactRef, item: WorkItem) {
    exists producer :: producer in plan.items && Stages(producer, ref, item) && producer.id in r
      && r[producer.id] == Completed
  }

  lemma ProducerCompletedIff(plan: Plan, r: Results, item: WorkItem, ref: ArtifactRef)
    requires Admissible(plan) && item in plan.items && item.mode == Integration
      && DeliveryRegistry.ContractFor(item).Some?
    requires IsStagedInput(plan, item, ref)
    ensures ProducerCompleted(plan, r, ref, item) <==> ref.workItemId in CompletedIds(r)
    ensures Reaches(DependencyGraph(plan.items), item.id, ref.workItemId)
  {
    EdgesRespectedIff(plan, item);
    assert EdgesRespected(plan, item);
  }

  /**
   In every run of an admitted plan, whenever a contracted integration can start, each of its
   staged inputs from this trace has a producer that delivers exactly that output and has
   completed, if and only if the producers awaited through the environment item have completed.
   */
  lemma IntegrationStartsAfterProducers(plan: Plan, states: seq<Results>, steps: seq<Step>, k: nat, item: WorkItem)
    requires Admissible(plan) && IsRun(plan, states, steps)
    requires k <= |steps| && item in plan.items && item.id in Ready(plan.items, states[k])
    requires item.mode == Integration && DeliveryRegistry.ContractFor(item).Some?
    ensures (forall ref :: IsStagedInput(plan, item, ref) ==> ProducerCompleted(plan, states[k], ref, item))
      <==> (forall ref :: IsStagedInput(plan, item, ref) && AwaitedThroughEnvironment(plan, item.id, ref.workItemId)
              ==> ref.workItemId in CompletedIds(states[k]))
  {
    forall ref | IsStagedInput(plan, item, ref)
      ensures ProducerCompleted(plan, states[k], ref, item) <==> ref.workItemId in CompletedIds(states[k])
      ensures ref.workItemId in CompletedIds(states[k]) || AwaitedThroughEnvironment(plan, item.id, ref.workItemId)
    {
      ProducerCompletedIff(plan, states[k], item, ref);
      if ref.workItemId !in CompletedIds(states[k]) {
        MissingOnlyThroughEnvironment(plan, states, steps, k, item.id, ref.workItemId);
      }
    }
  }

  /** A quality gate can start only after its integration producer, which has the gate's publish target. */
  lemma GateStartsAfterIntegration(plan: Plan, states: seq<Results>, steps: seq<Step>, k: nat, gate: WorkItem)
    requires Admissible(plan) && IsRun(plan, states, steps)
    requires k <= |steps| && gate in plan.items && gate.id in Ready(plan.items, states[k])
    requires gate.mode == QualityGate
    ensures exists producer :: (
              && producer in plan.items && gate.candidateFrom == Some(producer.id)
              && producer.id in CompletedIds(states[k])
              && producer.mode == Integration && producer.publishTarget == gate.publishTarget)
  {
    assert EdgesRespected(plan, gate);
    var producer := Find(plan.items, gate.candidateFrom.value).value;
    var i :| 0 <= i < |plan.items| && plan.items[i] == gate;
    ItemEdges(plan.items, gate);
    ReadyDependencies(plan.items, states[k], gate.id);
    assert producer.id in DependencySet(gate);
  }

  // ---- A prepared environment ----

  function PlainItem(id: Id, agent: string, dependencies: seq<Id>): WorkItem {
    WorkItem(id, agent, id, id, dependencies, Exclusive, [], None, None, None, None, [], [], "contract")
  }

  /** Tasks, then the environment, then code that waits for the environment alone. */
  const PREPARED_ITEMS := [PlainItem("tasks", "task_agent", []),
                           PlainItem("environment", "bootstrap_agent", ["tasks"]),
                           PlainItem("code", "code_agent", ["environment"])]

  const PREPARED_PLAN := Plan("plan", "goal", PREPARED_ITEMS, None, "process", "trace", "full_delivery")

  lemma PreparedGraph()
    ensures DependencyGraph(PREPARED_ITEMS) == map["tasks" := {}, "environment" := {"tasks"}, "code" := {"environment"}]
  {
    var items := PREPARED_ITEMS;
    DependencyGraphKeys(items);
    assert Ids(items) == {items[0].id, items[1].id, items[2].id};
    DependencyGraphAt(items, 0);
    DependencyGraphAt(items, 1);
    DependencyGraphAt(items, 2);
    assert DependencySet(items[0]) == {} && DependencySet(items[1]) == {"tasks"}
        && DependencySet(items[2]) == {"environment"};
    assert DependencyGraph(items).Keys == {"tasks", "environment", "code"};
  }

  lemma NotBlank(s: string)
    requires s != "" && !IsSpace(s[0])
    ensures !Blank(s)
  {
    assert s[0] in s;
  }

  lemma PreparedIsAcyclic(g: Graph)
    requires g == map["tasks" := {}, "environment" := {"tasks"}, "code" := {"environment"}]
    ensures Acyclic(g) && Complete(g)
  {
    AddLayer(g, {}, {"tasks"});
    AddLayer(g, {} + {"tasks"}, {"environment"});
    AddLayer(g, {} + {"tasks"} + {"environment"}, {"code"});
    assert {} + {"tasks"} + {"environment"} + {"code"} == g.Keys;
    AllLayeredIsAcyclic(g);
  }

  lemma PlainItemsRespectContracts()
    ensures DeliveryRegistry.ContractsRespected(PREPARED_ITEMS)
    ensures GatesAwaitCandidates(PREPARED_ITEMS)
    ensures forall item :: item in PREPARED_ITEMS ==> EdgesRespected(PREPARED_PLAN, item)
  {
    forall item | item in PREPARED_ITEMS ensures item.mode == Exclusive && item.agentId != "architecture_agent" {
    }
  }

  lemma PreparedPlanIsAdmissible()
    ensures Admissible(PREPARED_PLAN)
  {
    PreparedGraph();
    PreparedIsAcyclic(DependencyGraph(PREPARED_ITEMS));
    KnownDependenciesComplete(PREPARED_ITEMS);
    PlainItemsRespectContracts();
    NotBlank(PREPARED_PLAN.id);
    NotBlank(PREPARED_PLAN.goal);
    NotBlank(PREPARED_PLAN.processId);
  }

  /**
   The run of an admitted plan that shows the shortcut: in a project whose environment is already
   prepared, code can start although the tasks have not completed.
   */
  lemma CodeStartsBeforeTasks()
    ensures Admissible(PREPARED_PLAN)
    ensures IsRun(PREPARED_PLAN, [map[], map["environment" := Completed]], [Prepare])
    ensures "code" in Ready(PREPARED_ITEMS, map["environment" := Completed])
    ensures !AncestorsCompleted(PREPARED_PLAN, map["environment" := Completed], "code")
  {
    PreparedPlanIsAdmissible();
    PreparedGraph();
    var g, r: Results := DependencyGraph(PREPARED_ITEMS), map["environment" := Completed];
    assert EnvironmentIds(PREPARED_ITEMS[1..]) == {"environment"};
    assert EnvironmentIds(PREPARED_ITEMS) == {"environment"};
    assert CompletedIds(r) == {"environment"};
    assert DependencySet(PREPARED_ITEMS[2]) == {"environment"};
    EdgeReaches(g, "code", "environment");
    EdgeReaches(g, "environment", "tasks");
    ReachesTransitive(g, "code", "environment", "tasks");
  }
}
