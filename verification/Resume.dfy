/**
 Crash and retry recovery of a plan's results: rebuilding the completed frontier from the event
 log, applying the unconsumed retry records, re-checking evidence, pruning, and scheduling one
 architecture rerun. `RunState` and `TraceLog` are updated in place; every method is proved to
 compute a function on `View`s, and the theorems are about those functions.
 */
module Resume {
  import opened Graphs
  import opened WorkItems
  import opened PlanAdmission
  import opened Invalidation
  import DeliveryRegistry

  // ---- Events and retry records ----

  datatype EventKind =
    | ItemCompleted
    | ItemFailed
    | ItemNeedsReplan
    | ItemWaitingCapability
    | RetryRecoveryApplied
    | ArchitectureRecoveryScheduled
    | CodeWaveRepairScheduled
    | OtherEvent

  /** `retryCreatedAt` is the empty string on events whose details lack it. */
  datatype Event = Event(kind: EventKind, item: Id, retryCreatedAt: string)

  datatype RetryRecord = RetryRecord(createdAt: string, root: Option<Id>, interrupted: seq<Id>)

  class TraceLog {
    var events: seq<Event>

    constructor (events: seq<Event>)
      ensures this.events == events
    {
      this.events := events;
    }

    method RecordEvent(event: Event)
      modifies this
      ensures events == old(events) + [event]
    {
      events := events + [event];
    }
  }

  // ---- Run state ----

  datatype StateView = StateView(
    results: map<Id, NodeResult>,
    artifacts: map<string, string>,
    forced: set<Id>,
    diagnostics: map<Id, string>,
    contexts: map<Id, RetryRecord>)

  class RunState {
    const plan: Plan
    var results: map<Id, NodeResult>
    var artifacts: map<string, string>
    var forced: set<Id>
    var diagnostics: map<Id, string>
    var contexts: map<Id, RetryRecord>

    constructor (plan: Plan, v: StateView)
      ensures this.plan == plan && this.View() == v
    {
      this.plan := plan;
      results, artifacts, forced, diagnostics, contexts := v.results, v.artifacts, v.forced, v.diagnostics, v.contexts;
    }

    function View(): StateView
      reads this
    {
      StateView(results, artifacts, forced, diagnostics, contexts)
    }

    /** Adds the result of an item; only a completed one discharges the item's obligation to run again. */
    method Record(item: WorkItem, r: NodeResult) returns (ok: bool)
      modifies this
      ensures ok <==> Recorded(old(View()), item, r).Some?
      ensures View() == Recorded(old(View()), item, r).GetOr(old(View()))
    {
      if r.itemId != item.id || r.agentId != item.agentId || item.id in results {
        return false;
      }
      results := results[item.id := r];
      if r.status == Completed {
        forced := forced - {item.id};
        diagnostics := diagnostics - {item.id};
        contexts := contexts - {item.id};
        if r.content.Some? {
          artifacts := artifacts[item.outputKey := r.content.value];
        }
      }
      return true;
    }

    /** Pops the result and the artifact text of every id in `gone`. */
    method Drop(gone: set<Id>)
      modifies this
      ensures View() == Dropped(plan, old(View()), gone)
    {
      var todo := gone;
      DropNothing(plan, View());
      assert gone - todo == {};
      while todo != {}
        invariant todo <= gone
        invariant View() == Dropped(plan, old(View()), gone - todo)
        decreases |todo|
      {
        var id :| id in todo;
        DropOneMore(plan, old(View()), gone - todo, id);
        assert gone - (todo - {id}) == (gone - todo) + {id};
        todo := todo - {id};
        results := results - {id};
        var item := Find(plan.items, id);
        if item.Some? {
          artifacts := artifacts - {item.value.outputKey};
        }
      }
      assert gone - todo == gone;
    }
  }

  /** The state after recording, unless the result is not the item's or the item has one. */
  function Recorded(v: StateView, item: WorkItem, r: NodeResult): Option<StateView> {
    if r.itemId != item.id || r.agentId != item.agentId || item.id in v.results then None
    else
      var w := v.(results := v.results[item.id := r]);
      if r.status != Completed then Some(w)
      else
        var artifacts := if r.content.Some? then w.artifacts[item.outputKey := r.content.value] else w.artifacts;
        Some(w.(forced := w.forced - {item.id}, diagnostics := w.diagnostics - {item.id},
                contexts := w.contexts - {item.id}, artifacts := artifacts))
  }

  lemma DropNothing(plan: Plan, v: StateView)
    ensures Dropped(plan, v, {}) == v
  {
    assert OutputKeys(plan, {}) == {};
    assert v.results - {} == v.results && v.artifacts - {} == v.artifacts;
  }

  lemma DropOneMore(plan: Plan, v: StateView, done: set<Id>, id: Id)
    ensures var w, item := Dropped(plan, v, done), Find(plan.items, id);
      Dropped(plan, v, done + {id})
      == w.(results := w.results - {id},
            artifacts := if item.Some? then w.artifacts - {item.value.outputKey} else w.artifacts)
  {
    var item := Find(plan.items, id);
    RemoveMore(v.results, done, {id});
    OutputKeysOfUnion(plan, done, {id});
    RemoveMore(v.artifacts, OutputKeys(plan, done), OutputKeys(plan, {id}));
    assert OutputKeys(plan, {id}) == if item.Some? then {item.value.outputKey} else {};
    assert v.artifacts - OutputKeys(plan, done) - {} == v.artifacts - OutputKeys(plan, done);
  }

  lemma RemoveMore<K, V>(m: map<K, V>, a: set<K>, b: set<K>)
    ensures m - a - b == m - (a + b)
  {
  }

  /** The output keys of the given items. */
  function OutputKeys(plan: Plan, ids: set<Id>): set<string> {
    set n | n in ids && Find(plan.items, n).Some? :: Find(plan.items, n).value.outputKey
  }

  lemma OutputKeysOfUnion(plan: Plan, a: set<Id>, b: set<Id>)
    ensures OutputKeys(plan, a + b) == OutputKeys(plan, a) + OutputKeys(plan, b)
  {
  }

  function Dropped(plan: Plan, v: StateView, gone: set<Id>): StateView {
    v.(results := v.results - gone, artifacts := v.artifacts - OutputKeys(plan, gone))
  }

  // ---- Retry recovery ----

  /** The creation stamps of the retry records that the log says were applied. */
  function Consumed(events: seq<Event>): set<string> {
    set i | 0 <= i < |events| && events[i].kind == RetryRecoveryApplied :: events[i].retryCreatedAt
  }

  function InPlan(plan: Plan, ids: seq<Id>): seq<Id> {
    if ids == [] then [] else
      (if ids[0] != "" && Find(plan.items, ids[0]).Some? then [ids[0]] else []) + InPlan(plan, ids[1..])
  }

  lemma {:induction false} InPlanElements(plan: Plan, ids: seq<Id>)
    ensures Elements(InPlan(plan, ids)) == set n | n in ids && n != "" && n in Ids(plan.items)
  {
    if ids != [] {
      InPlanElements(plan, ids[1..]);
      assert ids == [ids[0]] + ids[1..];
      var head := if ids[0] != "" && Find(plan.items, ids[0]).Some? then [ids[0]] else [];
      ElementsConcat(head, InPlan(plan, ids[1..]));
    }
  }

  /** The root cause and the interrupted siblings, as far as the plan knows them. */
  function Frontier(plan: Plan, record: RetryRecord): seq<Id> {
    InPlan(plan, (if record.root.Some? then [record.root.value] else []) + record.interrupted)
  }

  lemma FrontierInPlan(plan: Plan, record: RetryRecord)
    ensures Elements(Frontier(plan, record)) <= Ids(plan.items)
  {
    InPlanElements(plan, (if record.root.Some? then [record.root.value] else []) + record.interrupted);
  }

  ghost function AfterRecord(plan: Plan, v: StateView, record: RetryRecord): StateView {
    var frontier := Elements(Frontier(plan, record));
    if frontier == {} then v else
      var w := Dropped(plan, v, Stale(plan.items, frontier));
      w.(contexts := w.contexts + map n | n in frontier :: record)
  }

  function Unconsumed(records: seq<RetryRecord>, consumed: set<string>): seq<RetryRecord> {
    if records == [] then [] else
      Unconsumed(records[..|records| - 1], consumed)
      + (if records[|records| - 1].createdAt in consumed then [] else [records[|records| - 1]])
  }

  ghost function AfterRecords(plan: Plan, v: StateView, records: seq<RetryRecord>): StateView {
    if records == [] then v
    else AfterRecord(plan, AfterRecords(plan, v, records[..|records| - 1]), records[|records| - 1])
  }

  /** One log entry for every applied record, whether or not it named a known item. */
  function AppliedEvents(records: seq<RetryRecord>): seq<Event> {
    seq(|records|, i requires 0 <= i < |records| => Event(RetryRecoveryApplied, "", records[i].createdAt))
  }

  method ApplyRecord(log: TraceLog, record: RetryRecord, state: RunState)
    requires UniqueIds(state.plan.items)
    modifies log, state
    ensures state.View() == AfterRecord(state.plan, old(state.View()), record)
    ensures log.events == old(log.events) + AppliedEvents([record])
  {
    FrontierInPlan(state.plan, record);
    var frontier := Frontier(state.plan, record);
    if frontier != [] {
      assert frontier[0] in Elements(frontier);
      var invalidated := InvalidateByWorklist(state.plan.items, frontier);
      state.Drop(invalidated);
      state.contexts := state.contexts + map n | n in Elements(frontier) :: record;
    }
    log.RecordEvent(Event(RetryRecoveryApplied, "", record.createdAt));
  }

  lemma UnconsumedStep(records: seq<RetryRecord>, i: nat, consumed: set<string>)
    requires i < |records|
    ensures var done := Unconsumed(records[..i], consumed);
      Unconsumed(records[..i + 1], consumed) == if records[i].createdAt in consumed then done else done + [records[i]]
  {
    assert records[..i + 1][..i] == records[..i];
  }

  /** The state and the log after a batch of applied records. */
  ghost predicate BatchApplied(plan: Plan, v: StateView, events: seq<Event>, done: seq<RetryRecord>, v': StateView,
                               events': seq<Event>) {
    v' == AfterRecords(plan, v, done) && events' == events + AppliedEvents(done)
  }

  lemma BatchGrows(plan: Plan, v: StateView, events: seq<Event>, done: seq<RetryRecord>, record: RetryRecord,
                   v': StateView, events': seq<Event>, v'': StateView, events'': seq<Event>)
    requires BatchApplied(plan, v, events, done, v', events')
    requires v'' == AfterRecord(plan, v', record) && events'' == events' + AppliedEvents([record])
    ensures BatchApplied(plan, v, events, done + [record], v'', events'')
  {
    assert (done + [record])[..|done|] == done;
    assert AppliedEvents(done + [record]) == AppliedEvents(done) + AppliedEvents([record]);
  }

  method ApplyUnconsumed(log: TraceLog, records: seq<RetryRecord>, consumed: set<string>, state: RunState)
    requires UniqueIds(state.plan.items)
    modifies log, state
    ensures BatchApplied(state.plan, old(state.View()), old(log.events), Unconsumed(records, consumed), state.View(),
                         log.events)
  {
    ghost var v, events := state.View(), log.events;
    for i := 0 to |records|
      invariant BatchApplied(state.plan, v, events, Unconsumed(records[..i], consumed), state.View(), log.events)
    {
      UnconsumedStep(records, i, consumed);
      if records[i].createdAt !in consumed {
        ghost var v', events' := state.View(), log.events;
        ApplyRecord(log, records[i], state);
        BatchGrows(state.plan, v, events, Unconsumed(records[..i], consumed), records[i], v', events', state.View(),
                   log.events);
      }
    }
    assert records[..|records|] == records;
  }

  /** Which records count as consumed is read from the log once, before the first one is applied. */
  method ApplyMonitorRetryRecovery(log: TraceLog, ledger: Option<seq<RetryRecord>>, state: RunState)
    requires UniqueIds(state.plan.items)
    modifies log, state
    ensures var due := Unconsumed(ledger.GetOr([]), Consumed(old(log.events)));
      && state.View() == AfterRecords(state.plan, old(state.View()), due)
      && log.events == old(log.events) + AppliedEvents(due)
  {
    if ledger.None? || ledger.value == [] {
      return;
    }
    var consumed := Consumed(log.events);
    ApplyUnconsumed(log, ledger.value, consumed, state);
  }

  /** Everything the records blame. */
  ghost function Blamed(plan: Plan, records: seq<RetryRecord>): set<Id> {
    if records == [] then {} else
      Blamed(plan, records[..|records| - 1]) + Elements(Frontier(plan, records[|records| - 1]))
  }

  lemma {:induction false} BlamedAt(plan: Plan, records: seq<RetryRecord>, i: nat)
    requires i < |records|
    ensures Elements(Frontier(plan, records[i])) <= Blamed(plan, records)
  {
    if i < |records| - 1 {
      BlamedAt(plan, records[..|records| - 1], i);
    }
  }

  lemma {:induction false} BlamedInPlan(plan: Plan, records: seq<RetryRecord>)
    ensures Blamed(plan, records) <= Ids(plan.items)
  {
    if records != [] {
      BlamedInPlan(plan, records[..|records| - 1]);
      FrontierInPlan(plan, records[|records| - 1]);
    }
  }

  /** Applying a batch of records removes exactly the results that depend on something they blame. */
  lemma {:induction false} RecordsDropStale(plan: Plan, v: StateView, records: seq<RetryRecord>)
    ensures var w := AfterRecords(plan, v, records);
      && w.results == v.results - Stale(plan.items, Blamed(plan, records))
      && w.forced == v.forced && w.diagnostics == v.diagnostics
      && w.contexts.Keys == v.contexts.Keys + Blamed(plan, records)
  {
    if records == [] {
      assert Stale(plan.items, {}) == {};
    } else {
      var init, last := records[..|records| - 1], records[|records| - 1];
      RecordsDropStale(plan, v, init);
      RecordDropsStale(plan, AfterRecords(plan, v, init), last);
      StaleOfUnion(plan.items, v.results, Blamed(plan, init), Elements(Frontier(plan, last)));
    }
  }

  lemma RecordDropsStale(plan: Plan, v: StateView, record: RetryRecord)
    ensures var w, blamed := AfterRecord(plan, v, record), Elements(Frontier(plan, record));
      && w.results == v.results - Stale(plan.items, blamed)
      && w.forced == v.forced && w.diagnostics == v.diagnostics
      && w.contexts.Keys == v.contexts.Keys + blamed
  {
    if Elements(Frontier(plan, record)) == {} {
      assert Stale(plan.items, {}) == {};
    }
  }

  lemma StaleOfUnion(items: seq<WorkItem>, results: map<Id, NodeResult>, a: set<Id>, b: set<Id>)
    ensures results - Stale(items, a) - Stale(items, b) == results - Stale(items, a + b)
  {
    DependentsOfUnion(DependencyGraph(items), DependencyGraph(items).Keys, a, b);
    RemoveMore(results, Stale(items, a), Stale(items, b));
  }

  lemma {:induction false} UnconsumedAll(records: seq<RetryRecord>, consumed: set<string>)
    ensures forall r :: r in Unconsumed(records, consumed) <==> r in records && r.createdAt !in consumed
  {
    if records != [] {
      UnconsumedAll(records[..|records| - 1], consumed);
      assert records == records[..|records| - 1] + [records[|records| - 1]];
    }
  }

  lemma AppliedAreConsumed(events: seq<Event>, applied: seq<RetryRecord>, i: nat)
    requires i < |applied|
    ensures applied[i].createdAt in Consumed(events + AppliedEvents(applied))
  {
    assert (events + AppliedEvents(applied))[|events| + i] == Event(RetryRecoveryApplied, "", applied[i].createdAt);
  }

  lemma ConsumedStays(events: seq<Event>, more: seq<Event>)
    ensures Consumed(events) <= Consumed(events + more)
  {
    forall s | s in Consumed(events) ensures s in Consumed(events + more) {
      var i :| 0 <= i < |events| && events[i].kind == RetryRecoveryApplied && events[i].retryCreatedAt == s;
      assert (events + more)[i] == events[i];
    }
  }

  lemma {:induction false} NothingUnconsumed(records: seq<RetryRecord>, consumed: set<string>)
    requires forall i :: 0 <= i < |records| ==> records[i].createdAt in consumed
    ensures Unconsumed(records, consumed) == []
  {
    if records != [] {
      NothingUnconsumed(records[..|records| - 1], consumed);
    }
  }

  /** After one application, the same ledger has nothing left to apply, so a second one changes nothing. */
  lemma RetryRecoveryIsIdempotent(plan: Plan, v: StateView, events: seq<Event>, records: seq<RetryRecord>)
    ensures var events' := events + AppliedEvents(Unconsumed(records, Consumed(events)));
      var again := Unconsumed(records, Consumed(events'));
      AfterRecords(plan, v, again) == v && events' + AppliedEvents(again) == events'
  {
    var due := Unconsumed(records, Consumed(events));
    forall k | 0 <= k < |records| ensures records[k].createdAt in Consumed(events + AppliedEvents(due)) {
      if records[k].createdAt in Consumed(events) {
        ConsumedStays(events, AppliedEvents(due));
      } else {
        UnconsumedAll(records, Consumed(events));
        var i :| 0 <= i < |due| && due[i] == records[k];
        AppliedAreConsumed(events, due, i);
      }
    }
    NothingUnconsumed(records, Consumed(events + AppliedEvents(due)));
  }

  // ---- Rebuilding the frontier from the event log ----

  predicate Terminal(kind: EventKind) {
    kind in {ItemCompleted, ItemFailed, ItemNeedsReplan, ItemWaitingCapability}
  }

  /** The last terminal event of an item decides its outcome. */
  function LastTerminal(events: seq<Event>, id: Id): Option<EventKind> {
    if events == [] then None
    else if events[|events| - 1].item == id && Terminal(events[|events| - 1].kind) then Some(events[|events| - 1].kind)
    else LastTerminal(events[..|events| - 1], id)
  }

  ghost function CompletedByLog(plan: Plan, events: seq<Event>): set<Id> {
    set n | n in Ids(plan.items) && n != "" && LastTerminal(events, n) == Some(ItemCompleted)
  }

  ghost function Rebuilt(plan: Plan, events: seq<Event>, store: map<string, string>): StateView {
    var done := Kept(DependencyGraph(plan.items), CompletedByLog(plan, events));
    var artifacts := map k | k in OutputKeys(plan, done) && k in store :: store[k];
    StateView(RebuiltResults(plan, done, artifacts), artifacts, {}, map[], map[])
  }

  function RebuiltResults(plan: Plan, done: set<Id>, artifacts: map<string, string>): map<Id, NodeResult> {
    map n | n in done && Find(plan.items, n).Some? ::
      var item := Find(plan.items, n).value;
      NodeResult(n, item.agentId, Completed,
                 Some(if item.outputKey in artifacts then artifacts[item.outputKey] else ""))
  }

  method RebuildDeliveryState(plan: Plan, log: TraceLog, store: map<string, string>) returns (v: StateView)
    requires UniqueIds(plan.items)
    ensures v == Rebuilt(plan, log.events, store)
  {
    var terminal: map<Id, EventKind> := map[];
    for i := 0 to |log.events|
      invariant forall n :: n in terminal <==> n in Ids(plan.items) && n != "" && LastTerminal(log.events[..i], n).Some?
      invariant forall n :: n in terminal ==> LastTerminal(log.events[..i], n) == Some(terminal[n])
    {
      var event := log.events[i];
      assert log.events[..i + 1][..i] == log.events[..i];
      if event.item != "" && Find(plan.items, event.item).Some? && Terminal(event.kind) {
        terminal := terminal[event.item := event.kind];
      }
    }
    assert log.events[..|log.events|] == log.events;
    var completed := set n | n in terminal && terminal[n] == ItemCompleted;
    assert completed == CompletedByLog(plan, log.events);
    var done := PruneToClosed(plan.items, completed);
    var artifacts := map k | k in OutputKeys(plan, done) && k in store :: store[k];
    v := StateView(RebuiltResults(plan, done, artifacts), artifacts, {}, map[], map[]);
  }

  // ---- Re-checking evidence ----

  /** What the artifact repository and the Git service answer while the state is being checked. */
  datatype Evidence = Evidence(stagedLoads: set<Id>, candidateFound: set<Id>, codeGateError: Option<string>)

  predicate GateFails(item: WorkItem, e: Evidence) {
    item.agentId == "code_integration_agent" && e.codeGateError.Some?
  }

  predicate IsLayeredIntegration(item: WorkItem) {
    && item.agentId == "architecture_agent" && item.mode == Integration && item.publishTarget == Some("architecture")
    && DeliveryRegistry.HasSuffix(item.id, "architecture-layered-integration")
  }

  predicate Proven(item: WorkItem, e: Evidence) {
    && (item.agentId == "architecture_agent" && item.mode == Partitioned ==> item.id in e.stagedLoads)
    && (IsLayeredIntegration(item) ==> item.id in e.candidateFound)
    && !GateFails(item, e)
  }

  function ProvenIds(plan: Plan, v: StateView, e: Evidence): set<Id> {
    set i | 0 <= i < |plan.items| && plan.items[i].id in v.results && Proven(plan.items[i], e) :: plan.items[i].id
  }

  /** The texts of the kept results by output key; of several items with one key the last counts. */
  function TextsByKey(items: seq<WorkItem>, results: map<Id, NodeResult>): map<string, string> {
    if items == [] then map[] else
      var before, last := TextsByKey(items[..|items| - 1], results), items[|items| - 1];
      if last.id in results && results[last.id].content.Some?
        then before[last.outputKey := results[last.id].content.value] else before
  }

  /** A failed code gate leaves its error as a diagnostic of its item. */
  function GateDiagnostics(items: seq<WorkItem>, v: StateView, e: Evidence): map<Id, string> {
    if items == [] then v.diagnostics else
      var before, last := GateDiagnostics(items[..|items| - 1], v, e), items[|items| - 1];
      if last.id in v.results && GateFails(last, e) then before[last.id := e.codeGateError.value] else before
  }

  lemma {:induction false} GateDiagnosticsKeys(items: seq<WorkItem>, v: StateView, e: Evidence)
    ensures GateDiagnostics(items, v, e).Keys
      == v.diagnostics.Keys + set i | 0 <= i < |items| && items[i].id in v.results
                                && GateFails(items[i], e) :: items[i].id
  {
    if items != [] {
      var init := items[..|items| - 1];
      GateDiagnosticsKeys(init, v, e);
      assert items == init + [items[|items| - 1]];
    }
  }

  ghost function Sanitized(plan: Plan, v: StateView, e: Evidence): StateView {
    var kept := Kept(DependencyGraph(plan.items), ProvenIds(plan, v, e));
    var results := map n | n in kept && n in v.results :: v.results[n];
    v.(results := results,
       artifacts := TextsByKey(plan.items, results),
       diagnostics := GateDiagnostics(plan.items, v, e))
  }

  method CheckEvidence(state: RunState, e: Evidence) returns (valid: set<Id>)
    modifies state`diagnostics
    ensures valid == ProvenIds(state.plan, old(state.View()), e)
    ensures state.diagnostics == GateDiagnostics(state.plan.items, old(state.View()), e)
  {
    var items := state.plan.items;
    valid := {};
    for i := 0 to |items|
      invariant valid == set k | 0 <= k < i && items[k].id in state.results && Proven(items[k], e) :: items[k].id
      invariant state.diagnostics == GateDiagnostics(items[..i], old(state.View()), e)
    {
      assert items[..i + 1][..i] == items[..i];
      if items[i].id in state.results {
        if GateFails(items[i], e) {
          state.diagnostics := state.diagnostics[items[i].id := e.codeGateError.value];
        } else if Proven(items[i], e) {
          valid := valid + {items[i].id};
        }
      }
    }
    assert items[..|items|] == items;
  }

  method CollectTexts(items: seq<WorkItem>, results: map<Id, NodeResult>) returns (texts: map<string, string>)
    ensures texts == TextsByKey(items, results)
  {
    texts := map[];
    for i := 0 to |items|
      invariant texts == TextsByKey(items[..i], results)
    {
      assert items[..i + 1][..i] == items[..i];
      if items[i].id in results && results[items[i].id].content.Some? {
        texts := texts[items[i].outputKey := results[items[i].id].content.value];
      }
    }
    assert items[..|items|] == items;
  }

  method SanitizeResumeState(state: RunState, e: Evidence)
    requires UniqueIds(state.plan.items)
    modifies state
    ensures state.View() == Sanitized(state.plan, old(state.View()), e)
  {
    var valid := CheckEvidence(state, e);
    var kept := PruneToClosed(state.plan.items, valid);
    state.results := map n | n in kept && n in state.results :: state.results[n];
    state.artifacts := CollectTexts(state.plan.items, state.results);
  }

  // ---- One architecture rerun ----

  /**
   What the failure diagnosis found: the items whose attributes and staged design match the
   failure, whether a completed result is required of an owner, and the diagnostic text.
   */
  datatype Diagnosis = NoDiagnosis | Diagnosis(matching: set<Id>, needsResult: bool, text: string)

  function Owners(plan: Plan, v: StateView, d: Diagnosis): set<Id> {
    if d.NoDiagnosis? then {} else
      set n | n in Ids(plan.items) && n in d.matching
              && (d.needsResult ==> n in v.results && v.results[n].status == Completed)
  }

  /** A rerun is scheduled only for a single owner that is not already marked and has completed. */
  predicate Reschedules(plan: Plan, v: StateView, d: Diagnosis, owner: Id) {
    && Owners(plan, v, d) == {owner}
    && owner !in v.forced
    && owner in v.results && v.results[owner].status == Completed
  }

  ghost function Prepared(plan: Plan, v: StateView, d: Diagnosis): StateView {
    if exists owner :: Reschedules(plan, v, d, owner) then
      var owner :| Reschedules(plan, v, d, owner);
      var w := Dropped(plan, v, Stale(plan.items, {owner}));
      w.(forced := w.forced + {owner}, diagnostics := w.diagnostics[owner := d.text])
    else v
  }

  ghost function ScheduledEvents(plan: Plan, v: StateView, d: Diagnosis): seq<Event> {
    if owner :| Reschedules(plan, v, d, owner) then [Event(ArchitectureRecoveryScheduled, owner, "")] else []
  }

  method PrepareArchitectureContractRecovery(log: TraceLog, state: RunState, d: Diagnosis)
    requires UniqueIds(state.plan.items)
    modifies log, state
    ensures state.View() == Prepared(state.plan, old(state.View()), d)
    ensures log.events == old(log.events) + ScheduledEvents(state.plan, old(state.View()), d)
  {
    var owners := Owners(state.plan, state.View(), d);
    if |owners| != 1 {
      forall owner ensures owners != {owner} {
        assert |{owner}| == 1;
      }
      assert ScheduledEvents(state.plan, state.View(), d) == [];
      return;
    }
    var owner :| owner in owners;
    SingleMember(owners, owner);
    if owner in state.forced {
      return;
    }
    if owner !in state.results || state.results[owner].status != Completed {
      return;
    }
    assert Reschedules(state.plan, state.View(), d, owner);
    assert Elements([owner]) == {owner};
    var invalidated := InvalidateByWorklist(state.plan.items, [owner]);
    state.Drop(invalidated);
    state.forced := state.forced + {owner};
    state.diagnostics := state.diagnostics[owner := d.text];
    log.RecordEvent(Event(ArchitectureRecoveryScheduled, owner, ""));
  }

  lemma SingleMember(s: set<Id>, x: Id)
    requires |s| == 1 && x in s
    ensures s == {x}
  {
    assert |s - {x}| == 0;
  }

  /** With the same diagnosis, or none, a second run schedules nothing more. */
  lemma ArchitectureRecoveryIsIdempotent(plan: Plan, v: StateView, d: Diagnosis)
    requires UniqueIds(plan.items)
    ensures Prepared(plan, Prepared(plan, v, d), d) == Prepared(plan, v, d)
    ensures Prepared(plan, Prepared(plan, v, d), NoDiagnosis) == Prepared(plan, v, d)
  {
    var w := Prepared(plan, v, d);
    if owner :| Reschedules(plan, v, d, owner) {
      assert w.forced >= v.forced + {owner};
      forall n ensures !Reschedules(plan, w, d, n) {
        assert Owners(plan, w, d) <= Owners(plan, v, d);
      }
    }
  }

  // ---- Loading a resumable state ----

  datatype ResumeInput = ResumeInput(
    latest: Plan,
    repairPending: bool,
    delivery: Plan,
    liveCheckpoint: Option<StateView>,
    deliveryCheckpoint: Option<StateView>,
    ledger: Option<seq<RetryRecord>>,
    evidence: Evidence,
    diagnosis: Diagnosis,
    store: map<string, string>)

  predicate Contains(s: string, part: string) {
    exists i :: 0 <= i <= |s| - |part| && part <= s[i..]
  }

  predicate InRepair(input: ResumeInput) {
    Contains(input.latest.id, "-repair-") && input.repairPending
  }

  const EMPTY_VIEW := StateView(map[], map[], {}, map[], map[])

  /** The readable checkpoints, in the order in which they are tried. */
  function Checkpoints(input: ResumeInput): seq<StateView> {
    var live := if input.liveCheckpoint.Some? then [input.liveCheckpoint.value] else [];
    var base := if input.deliveryCheckpoint.Some? then [input.deliveryCheckpoint.value] else [];
    if Contains(input.delivery.id, "-repair-") then base + live else live + base
  }

  /** The position of the first of the views with the most results. */
  function RichestAt(views: seq<StateView>): (k: nat)
    requires views != []
    ensures k < |views|
  {
    if |views| == 1 then 0 else
      var k, last := RichestAt(views[..|views| - 1]), |views| - 1;
      if |views[last].results| > |views[k].results| then last else k
  }

  /** `max` by number of results, where the rebuilt state, here `None`, wins a tie. */
  function Choice(checkpoints: seq<StateView>, rebuilt: StateView): (own: Option<nat>)
    ensures own.Some? ==> own.value < |checkpoints|
  {
    if checkpoints == [] || |rebuilt.results| >= |checkpoints[RichestAt(checkpoints)].results| then None
    else Some(RichestAt(checkpoints))
  }

  function Chosen(checkpoints: seq<StateView>, rebuilt: StateView): StateView {
    var own := Choice(checkpoints, rebuilt);
    if own.Some? then checkpoints[own.value] else rebuilt
  }

  lemma {:induction false} RichestIsMaximal(views: seq<StateView>, v: StateView)
    requires views != []
    ensures v in views ==> |v.results| <= |views[RichestAt(views)].results|
  {
    if |views| > 1 {
      var init := views[..|views| - 1];
      assert views == init + [views[|views| - 1]];
      RichestIsMaximal(init, v);
    }
  }

  /** No candidate has more results than the chosen one, and the rebuilt one wins a tie. */
  lemma ChosenIsRichest(checkpoints: seq<StateView>, rebuilt: StateView, v: StateView)
    ensures Chosen(checkpoints, rebuilt) == rebuilt || Chosen(checkpoints, rebuilt) in checkpoints
    ensures v == rebuilt || v in checkpoints ==> |v.results| <= |Chosen(checkpoints, rebuilt).results|
    ensures |rebuilt.results| == |Chosen(checkpoints, rebuilt).results| ==> Chosen(checkpoints, rebuilt) == rebuilt
  {
    if checkpoints != [] {
      RichestIsMaximal(checkpoints, v);
      RichestIsMaximal(checkpoints, rebuilt);
    }
  }

  /** A diagnostic is taken over unless it is missing or empty. */
  predicate Carries(diagnostics: map<Id, string>, n: Id) {
    n in diagnostics && diagnostics[n] != ""
  }

  function TakenOver(diagnostics: map<Id, string>, ids: set<Id>): map<Id, string> {
    map n | n in ids && Carries(diagnostics, n) :: diagnostics[n]
  }

  /** Forced reruns of a checkpoint are taken over for the items without a result. */
  function Merged(v: StateView, checkpoint: StateView): StateView {
    v.(forced := v.forced + (checkpoint.forced - v.results.Keys),
       diagnostics := v.diagnostics + TakenOver(checkpoint.diagnostics, checkpoint.forced - v.results.Keys))
  }

  /** Merges the checkpoints in order; the one that is itself the state, if any, has nothing to add. */
  function MergedAll(v: StateView, checkpoints: seq<StateView>, own: Option<nat>): StateView {
    if checkpoints == [] then v else
      var before, last := MergedAll(v, checkpoints[..|checkpoints| - 1], own), |checkpoints| - 1;
      if own == Some(last) then before else Merged(before, checkpoints[last])
  }

  lemma TakeOverOneMore(base: map<Id, string>, diagnostics: map<Id, string>, ids: set<Id>, id: Id)
    ensures base + TakenOver(diagnostics, ids + {id}) ==
      if Carries(diagnostics, id) then (base + TakenOver(diagnostics, ids))[id := diagnostics[id]]
        else base + TakenOver(diagnostics, ids)
  {
  }

  /** One mark, with its diagnostic if that is carried. */
  function TookOver(v: StateView, diagnostics: map<Id, string>, id: Id): StateView {
    v.(forced := v.forced + {id},
       diagnostics := if Carries(diagnostics, id) then v.diagnostics[id := diagnostics[id]] else v.diagnostics)
  }

  function MergedPart(v: StateView, checkpoint: StateView, done: set<Id>): StateView {
    Merged(v, checkpoint.(forced := done))
  }

  lemma MergeNothing(v: StateView, checkpoint: StateView)
    ensures MergedPart(v, checkpoint, {}) == v
  {
    assert v.diagnostics + TakenOver(checkpoint.diagnostics, {} - v.results.Keys) == v.diagnostics;
  }

  lemma MergeOneMore(v: StateView, checkpoint: StateView, done: set<Id>, id: Id)
    ensures var w := MergedPart(v, checkpoint, done);
      MergedPart(v, checkpoint, done + {id}) == if id in v.results then w else TookOver(w, checkpoint.diagnostics, id)
  {
    if id in v.results {
      assert done + {id} - v.results.Keys == done - v.results.Keys;
    } else {
      assert done + {id} - v.results.Keys == done - v.results.Keys + {id};
      TakeOverOneMore(v.diagnostics, checkpoint.diagnostics, done - v.results.Keys, id);
    }
  }

  /** Reads the diagnostics from `checkpoint`, which may be the very object that is marked. */
  method TakeOver(state: RunState, checkpoint: RunState, id: Id)
    modifies state`forced, state`diagnostics
    ensures state.View() == TookOver(old(state.View()), old(checkpoint.diagnostics), id)
    ensures checkpoint.diagnostics == old(checkpoint.diagnostics)
  {
    state.forced := state.forced + {id};
    if Carries(checkpoint.diagnostics, id) {
      state.diagnostics := state.diagnostics[id := checkpoint.diagnostics[id]];
    }
  }

  /** `checkpoint` may be the very object that is merged into. */
  method MergeForcedReruns(state: RunState, checkpoint: RunState, completed: set<Id>)
    requires completed == state.results.Keys
    modifies state`forced, state`diagnostics
    ensures state.View() == Merged(old(state.View()), old(checkpoint.View()))
  {
    var todo := checkpoint.forced;
    ghost var v, c, done: set<Id> := state.View(), checkpoint.View(), {};
    MergeNothing(v, c);
    while todo != {}
      invariant done + todo == c.forced
      invariant state.View() == MergedPart(v, c, done)
      invariant checkpoint.diagnostics == c.diagnostics
      decreases |todo|
    {
      var id :| id in todo;
      todo := todo - {id};
      MergeOneMore(v, c, done, id);
      done := done + {id};
      if id !in completed {
        TakeOver(state, checkpoint, id);
      }
    }
    assert c.(forced := done) == c;
  }

  lemma MergingItself(v: StateView)
    ensures Merged(v, v) == v
  {
    assert v.forced + (v.forced - v.results.Keys) == v.forced;
    assert v.diagnostics + TakenOver(v.diagnostics, v.forced - v.results.Keys) == v.diagnostics;
  }

  /** The views of the checkpoint objects. */
  function Views(checkpoints: seq<RunState>): seq<StateView>
    reads checkpoints
  {
    seq(|checkpoints|, i requires 0 <= i < |checkpoints| reads checkpoints => checkpoints[i].View())
  }

  /** The checkpoint at position `own`, and no other, is `state` itself. */
  ghost predicate OwnAt(state: RunState, checkpoints: seq<RunState>, own: Option<nat>) {
    forall i :: 0 <= i < |checkpoints| ==> (checkpoints[i] == state <==> own == Some(i))
  }

  method MergeCheckpoints(state: RunState, checkpoints: seq<RunState>, ghost own: Option<nat>)
    requires OwnAt(state, checkpoints, own)
    modifies state`forced, state`diagnostics
    ensures state.View() == MergedAll(old(state.View()), old(Views(checkpoints)), own)
  {
    var completed := state.results.Keys;
    ghost var v, views := state.View(), Views(checkpoints);
    for i := 0 to |checkpoints|
      invariant state.View() == MergedAll(v, views[..i], own) && state.results.Keys == completed
      invariant forall j :: 0 <= j < |checkpoints| && checkpoints[j] != state ==> checkpoints[j].View() == views[j]
    {
      assert views[..i + 1][..i] == views[..i];
      MergingItself(state.View());
      MergeForcedReruns(state, checkpoints[i], completed);
    }
    assert views[..|checkpoints|] == views;
  }

  /** The state the retry records are applied to, on either branch. */
  ghost function Loaded(input: ResumeInput, events: seq<Event>): StateView {
    if InRepair(input) then
      input.liveCheckpoint.GetOr(EMPTY_VIEW)
    else
      var rebuilt := Rebuilt(input.delivery, events, input.store);
      MergedAll(Chosen(Checkpoints(input), rebuilt), Checkpoints(input), Choice(Checkpoints(input), rebuilt))
  }

  function ResumePlan(input: ResumeInput): Plan {
    if InRepair(input) then input.latest else input.delivery
  }

  ghost function Resumed(input: ResumeInput, events: seq<Event>): StateView {
    var plan := ResumePlan(input);
    var due := Unconsumed(input.ledger.GetOr([]), Consumed(events));
    var checked := Sanitized(plan, AfterRecords(plan, Loaded(input, events), due), input.evidence);
    if InRepair(input) then checked else Prepared(plan, checked, input.diagnosis)
  }

  /** One new object per readable checkpoint. */
  method OpenCheckpoints(plan: Plan, views: seq<StateView>) returns (checkpoints: seq<RunState>)
    ensures |checkpoints| == |views| && Views(checkpoints) == views
    ensures forall i :: 0 <= i < |checkpoints| ==> fresh(checkpoints[i]) && checkpoints[i].plan == plan
    ensures forall i, j :: 0 <= i < j < |checkpoints| ==> checkpoints[i] != checkpoints[j]
  {
    checkpoints := [];
    for k := 0 to |views|
      invariant |checkpoints| == k
      invariant forall i :: 0 <= i < k
                  ==> fresh(checkpoints[i]) && checkpoints[i].plan == plan && checkpoints[i].View() == views[i]
      invariant forall i, j :: 0 <= i < j < k ==> checkpoints[i] != checkpoints[j]
    {
      var checkpoint := new RunState(plan, views[k]);
      checkpoints := checkpoints + [checkpoint];
    }
  }

  /** The log after a resume: one entry per applied record, and one for a scheduled architecture rerun. */
  ghost function LogAfter(input: ResumeInput, events: seq<Event>): seq<Event> {
    var plan := ResumePlan(input);
    var due := Unconsumed(input.ledger.GetOr([]), Consumed(events));
    var checked := Sanitized(plan, AfterRecords(plan, Loaded(input, events), due), input.evidence);
    events + AppliedEvents(due) + if InRepair(input) then [] else ScheduledEvents(plan, checked, input.diagnosis)
  }

  /** The chosen state is one of the checkpoint objects, or a new one for the rebuilt state. */
  method PickState(plan: Plan, checkpoints: seq<RunState>, views: seq<StateView>, rebuilt: StateView)
    returns (state: RunState, ghost own: Option<nat>)
    requires |checkpoints| == |views| && Views(checkpoints) == views
    requires forall i :: 0 <= i < |checkpoints| ==> checkpoints[i].plan == plan
    requires forall i, j :: 0 <= i < j < |checkpoints| ==> checkpoints[i] != checkpoints[j]
    ensures fresh(state) || state in checkpoints
    ensures own == Choice(views, rebuilt) && OwnAt(state, checkpoints, own)
    ensures state.plan == plan && state.View() == Chosen(views, rebuilt)
  {
    var k := Choice(views, rebuilt);
    own := k;
    if k.Some? {
      state := checkpoints[k.value];
      assert Views(checkpoints)[k.value] == state.View();
    } else {
      state := new RunState(plan, rebuilt);
    }
  }

  method ChooseCandidate(input: ResumeInput, log: TraceLog) returns (state: RunState)
    requires UniqueIds(input.delivery.items) && !InRepair(input)
    ensures fresh(state) && state.plan == input.delivery
    ensures state.View() == Loaded(input, log.events)
  {
    var views := Checkpoints(input);
    var checkpoints := OpenCheckpoints(input.delivery, views);
    var rebuilt := RebuildDeliveryState(input.delivery, log, input.store);
    ghost var own;
    state, own := PickState(input.delivery, checkpoints, views, rebuilt);
    MergeCheckpoints(state, checkpoints, own);
  }

  method LoadDeliveryResume(input: ResumeInput, log: TraceLog) returns (state: RunState)
    requires UniqueIds(ResumePlan(input).items)
    modifies log
    ensures fresh(state) && state.plan == ResumePlan(input)
    ensures state.View() == Resumed(input, old(log.events))
    ensures log.events == LogAfter(input, old(log.events))
  {
    if InRepair(input) {
      state := new RunState(input.latest, input.liveCheckpoint.GetOr(EMPTY_VIEW));
      ApplyMonitorRetryRecovery(log, input.ledger, state);
      SanitizeResumeState(state, input.evidence);
      return;
    }
    state := ChooseCandidate(input, log);
    ApplyMonitorRetryRecovery(log, input.ledger, state);
    SanitizeResumeState(state, input.evidence);
    PrepareArchitectureContractRecovery(log, state, input.diagnosis);
  }
}
