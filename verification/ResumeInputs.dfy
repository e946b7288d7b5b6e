/**
 What a resume does, said of the fields of its inputs: the retry records, the event log, the
 evidence and the items of the plan.
 */
module ResumeInputs {
  import opened Graphs
  import opened WorkItems
  import opened PlanAdmission
  import opened Invalidation
  import opened Resume
  import opened ResumeTheorems
  import DeliveryRegistry

  // ---- Retry records ----

  /** No entry of the log says that this record was applied. */
  ghost predicate NotYetApplied(events: seq<Event>, r: RetryRecord) {
    forall i :: 0 <= i < |events| && events[i].kind == RetryRecoveryApplied ==> events[i].retryCreatedAt != r.createdAt
  }

  /** The record names this item of the plan as its root cause or as an interrupted sibling. */
  predicate Names(plan: Plan, r: RetryRecord, n: Id) {
    (r.root == Some(n) || n in r.interrupted) && n != "" && exists i :: 0 <= i < |plan.items| && plan.items[i].id == n
  }

  lemma FrontierIff(plan: Plan, r: RetryRecord, n: Id)
    ensures n in Elements(Frontier(plan, r)) <==> Names(plan, r, n)
  {
    var ids := (if r.root.Some? then [r.root.value] else []) + r.interrupted;
    InPlanElements(plan, ids);
    assert n in ids <==> r.root == Some(n) || n in r.interrupted;
  }

  lemma NotYetAppliedIff(events: seq<Event>, r: RetryRecord)
    ensures NotYetApplied(events, r) <==> r.createdAt !in Consumed(events)
  {
    if r.createdAt in Consumed(events) {
      var i :| 0 <= i < |events| && events[i].kind == RetryRecoveryApplied && events[i].retryCreatedAt == r.createdAt;
    }
  }

  /**
   After a resume no result is, or depends on, an item that a record names, for every record of
   the ledger that the log did not list as applied when the resume began.
   */
  lemma RecordsAreObeyed(input: ResumeInput, events: seq<Event>, r: RetryRecord, f: Id, n: Id)
    requires UniqueIds(ResumePlan(input).items)
    requires r in input.ledger.GetOr([]) && NotYetApplied(events, r) && Names(ResumePlan(input), r, f)
    requires n in Resumed(input, events).results
    ensures n != f && !Reaches(DependencyGraph(ResumePlan(input).items), n, f)
  {
    FrontierIff(ResumePlan(input), r, f);
    NotYetAppliedIff(events, r);
    UnconsumedBlames(input, events, r, f);
    BlamedIsDropped(input, events, f, n);
  }

  lemma BlamedIsDropped(input: ResumeInput, events: seq<Event>, f: Id, n: Id)
    requires UniqueIds(ResumePlan(input).items)
    requires f in Blamed(ResumePlan(input), Due(input, events)) && n in Resumed(input, events).results
    ensures !ReachesOrIs(DependencyGraph(ResumePlan(input).items), n, f)
  {
    ResumeIsSound(input, events);
    assert Trusted(input, events, n);
  }

  /** The last of the records that names the item. */
  function LastNaming(plan: Plan, records: seq<RetryRecord>, n: Id): Option<RetryRecord> {
    if records == [] then None
    else if Names(plan, records[|records| - 1], n) then Some(records[|records| - 1])
    else LastNaming(plan, records[..|records| - 1], n)
  }

  lemma RecordContexts(plan: Plan, v: StateView, record: RetryRecord, n: Id)
    ensures var w := AfterRecord(plan, v, record);
      && (n in w.contexts <==> n in v.contexts || Names(plan, record, n))
      && (n in w.contexts ==> w.contexts[n] == if Names(plan, record, n) then record else v.contexts[n])
  {
    FrontierIff(plan, record, n);
  }

  lemma {:induction false} ContextsAfterRecords(plan: Plan, v: StateView, records: seq<RetryRecord>, n: Id)
    ensures var w, last := AfterRecords(plan, v, records), LastNaming(plan, records, n);
      && (n in w.contexts <==> n in v.contexts || last.Some?)
      && (n in w.contexts ==> w.contexts[n] == if last.Some? then last.value else v.contexts[n])
  {
    if records != [] {
      var init := records[..|records| - 1];
      ContextsAfterRecords(plan, v, init, n);
      RecordContexts(plan, AfterRecords(plan, v, init), records[|records| - 1], n);
    }
  }

  /** Record `k` of the ledger is due and names the item, and no later due record does. */
  ghost predicate IsLastDue(plan: Plan, events: seq<Event>, ledger: seq<RetryRecord>, k: nat, n: Id) {
    && k < |ledger| && NotYetApplied(events, ledger[k]) && Names(plan, ledger[k], n)
    && forall j :: k < j < |ledger| && NotYetApplied(events, ledger[j]) ==> !Names(plan, ledger[j], n)
  }

  ghost predicate NoneDue(plan: Plan, events: seq<Event>, ledger: seq<RetryRecord>, n: Id) {
    forall j :: 0 <= j < |ledger| && NotYetApplied(events, ledger[j]) ==> !Names(plan, ledger[j], n)
  }

  lemma {:induction false} LastNamingIsLastDue(plan: Plan, events: seq<Event>, ledger: seq<RetryRecord>, n: Id)
    ensures var last := LastNaming(plan, Unconsumed(ledger, Consumed(events)), n);
      && (last.Some? ==> exists k: nat :: IsLastDue(plan, events, ledger, k, n) && last.value == ledger[k])
      && (last.None? ==> NoneDue(plan, events, ledger, n))
  {
    if ledger != [] {
      var init, r := ledger[..|ledger| - 1], ledger[|ledger| - 1];
      LastNamingIsLastDue(plan, events, init, n);
      LastNamingOneMore(plan, events, ledger, n);
      if NotYetApplied(events, r) && Names(plan, r, n) {
        assert IsLastDue(plan, events, ledger, |ledger| - 1, n);
      } else if k: nat :| IsLastDue(plan, events, init, k, n) {
        LastDueStays(plan, events, ledger, k, n);
      }
    }
  }

  lemma LastNamingOneMore(plan: Plan, events: seq<Event>, ledger: seq<RetryRecord>, n: Id)
    requires ledger != []
    ensures var init, r := ledger[..|ledger| - 1], ledger[|ledger| - 1];
      LastNaming(plan, Unconsumed(ledger, Consumed(events)), n)
      == if NotYetApplied(events, r) && Names(plan, r, n) then Some(r)
         else LastNaming(plan, Unconsumed(init, Consumed(events)), n)
  {
    var init, r := ledger[..|ledger| - 1], ledger[|ledger| - 1];
    var before := Unconsumed(init, Consumed(events));
    NotYetAppliedIff(events, r);
    assert (before + [r])[..|before|] == before && before + [] == before;
  }

  lemma LastDueStays(plan: Plan, events: seq<Event>, ledger: seq<RetryRecord>, k: nat, n: Id)
    requires ledger != [] && IsLastDue(plan, events, ledger[..|ledger| - 1], k, n)
    requires !(NotYetApplied(events, ledger[|ledger| - 1]) && Names(plan, ledger[|ledger| - 1], n))
    ensures IsLastDue(plan, events, ledger, k, n) && ledger[..|ledger| - 1][k] == ledger[k]
  {
    assert forall j :: 0 <= j < |ledger| - 1 ==> ledger[..|ledger| - 1][j] == ledger[j];
  }

  lemma ContextsOfResumed(input: ResumeInput, events: seq<Event>)
    ensures Resumed(input, events).contexts
      == AfterRecords(ResumePlan(input), Loaded(input, events), Due(input, events)).contexts
  {
    ResumedFromChecked(input, events);
    if owner :| Reschedules(ResumePlan(input), Checked(input, events), input.diagnosis, owner) {
      PreparedKeepsContexts(ResumePlan(input), Checked(input, events), input.diagnosis);
    }
  }

  lemma PreparedKeepsContexts(plan: Plan, v: StateView, d: Diagnosis)
    ensures Prepared(plan, v, d).contexts == v.contexts
  {
  }

  /**
   After a resume, an item's retry context is the last due record of the ledger that names it;
   an item that no due record names has the context it was loaded with, if any.
   */
  lemma ContextIsLastDueRecord(input: ResumeInput, events: seq<Event>, n: Id)
    ensures var plan, ledger, w := ResumePlan(input), input.ledger.GetOr([]), Resumed(input, events);
      && (forall k: nat :: IsLastDue(plan, events, ledger, k, n) ==> n in w.contexts && w.contexts[n] == ledger[k])
      && (NoneDue(plan, events, ledger, n) ==>
            && (n in w.contexts <==> n in Loaded(input, events).contexts)
            && (n in w.contexts ==> w.contexts[n] == Loaded(input, events).contexts[n]))
  {
    var plan, ledger := ResumePlan(input), input.ledger.GetOr([]);
    ContextsOfResumed(input, events);
    ContextsAfterRecords(plan, Loaded(input, events), Due(input, events), n);
    LastNamingIsLastDue(plan, events, ledger, n);
    forall k: nat, l: nat | IsLastDue(plan, events, ledger, k, n) && IsLastDue(plan, events, ledger, l, n)
      ensures k == l
    {
    }
  }

  // ---- The event log ----

  /** Entry `i` tells that the item completed, and no later entry tells of another outcome of it. */
  ghost predicate CompletedLastAt(events: seq<Event>, n: Id, i: nat) {
    && i < |events| && events[i].item == n && events[i].kind == ItemCompleted
    && forall j :: i < j < |events| && events[j].item == n ==>
      events[j].kind !in {ItemCompleted, ItemFailed, ItemNeedsReplan, ItemWaitingCapability}
  }

  /** The last outcome the log tells of the item is its completion. */
  ghost predicate LastCompleted(events: seq<Event>, n: Id) {
    exists i: nat :: CompletedLastAt(events, n, i)
  }

  lemma QuietEntryKeepsOutcome(init: seq<Event>, last: Event, n: Id)
    requires !(last.item == n && Terminal(last.kind))
    ensures LastCompleted(init + [last], n) <==> LastCompleted(init, n)
  {
    var events := init + [last];
    if i: nat :| CompletedLastAt(init, n, i) {
      assert CompletedLastAt(events, n, i);
    }
    if i: nat :| CompletedLastAt(events, n, i) {
      forall j | i < j < |init| && init[j].item == n
        ensures init[j].kind !in {ItemCompleted, ItemFailed, ItemNeedsReplan, ItemWaitingCapability}
      {
        assert events[j] == init[j];
      }
      assert CompletedLastAt(init, n, i);
    }
  }

  lemma OutcomeDecides(init: seq<Event>, last: Event, n: Id)
    requires last.item == n && Terminal(last.kind)
    ensures LastCompleted(init + [last], n) <==> last.kind == ItemCompleted
  {
    var events := init + [last];
    assert events[|init|] == last;
    assert last.kind == ItemCompleted ==> CompletedLastAt(events, n, |init|);
  }

  lemma {:induction false} LastTerminalIff(events: seq<Event>, n: Id)
    ensures LastTerminal(events, n) == Some(ItemCompleted) <==> LastCompleted(events, n)
  {
    if events != [] {
      var init, last := events[..|events| - 1], events[|events| - 1];
      LastTerminalIff(init, n);
      assert events == init + [last];
      if last.item == n && Terminal(last.kind) {
        OutcomeDecides(init, last, n);
      } else {
        QuietEntryKeepsOutcome(init, last, n);
      }
    }
  }

  /** The rebuilt state has a result exactly of the items that, with all they depend on, last completed. */
  lemma RebuiltIff(plan: Plan, events: seq<Event>, store: map<string, string>, n: Id)
    ensures n in Rebuilt(plan, events, store).results <==>
      forall m :: ReachesOrIs(DependencyGraph(plan.items), n, m) ==>
        m != "" && m in Ids(plan.items) && LastCompleted(events, m)
  {
    var g, completed := DependencyGraph(plan.items), CompletedByLog(plan, events);
    forall m ensures m in completed <==> m != "" && m in Ids(plan.items) && LastCompleted(events, m) {
      LastTerminalIff(events, m);
    }
    RebuiltKeys(plan, events, store);
    assert ReachesOrIs(g, n, n);
    assert n in Kept(g, completed) <==> forall m :: ReachesOrIs(g, n, m) ==> m in completed;
  }

  lemma RebuiltKeys(plan: Plan, events: seq<Event>, store: map<string, string>)
    ensures Rebuilt(plan, events, store).results.Keys == Kept(DependencyGraph(plan.items), CompletedByLog(plan, events))
  {
  }

  // ---- Evidence and branches ----

  /**
   An item's evidence holds: a partition of the architecture can be read, the layered integration
   has its candidate, and a code integration passed its gate.
   */
  ghost predicate HasEvidence(item: WorkItem, e: Evidence) {
    && (item.agentId == "architecture_agent" && item.mode == Partitioned ==> item.id in e.stagedLoads)
    && (item.agentId == "architecture_agent" && item.mode == Integration && item.publishTarget == Some("architecture")
        && (exists a :: item.id == a + "architecture-layered-integration")
        ==> item.id in e.candidateFound)
    && (item.agentId == "code_integration_agent" ==> e.codeGateError == None)
  }

  lemma ProvenIff(item: WorkItem, e: Evidence)
    ensures Proven(item, e) <==> HasEvidence(item, e)
  {
    var suffix := "architecture-layered-integration";
    if DeliveryRegistry.HasSuffix(item.id, suffix) {
      assert item.id == item.id[..|item.id| - |suffix|] + suffix;
    }
    if a :| item.id == a + suffix {
      assert item.id[|item.id| - |suffix|..] == suffix;
    }
  }

  /** Every result of a resume is of an item whose own evidence holds. */
  lemma ResumedResultsHaveEvidence(input: ResumeInput, events: seq<Event>, n: Id, item: WorkItem)
    requires UniqueIds(ResumePlan(input).items) && n in Resumed(input, events).results
    requires item in ResumePlan(input).items && item.id == n
    ensures HasEvidence(item, input.evidence)
  {
    ResumeIsSound(input, events);
    var i :| 0 <= i < |ResumePlan(input).items| && ResumePlan(input).items[i] == item;
    FindAt(ResumePlan(input).items, i);
    assert Trusted(input, events, n);
    ProvenIff(item, input.evidence);
  }

  lemma ContainsIff(s: string, part: string)
    ensures Contains(s, part) <==> exists a, b :: s == a + part + b
  {
    if Contains(s, part) {
      var i :| 0 <= i <= |s| - |part| && part <= s[i..];
      assert s == s[..i] + part + s[i + |part|..];
    }
    if a, b :| s == a + part + b {
      assert s[|a|..] == part + b;
    }
  }

  /** The repair branch is taken exactly when the latest plan's id contains `-repair-` and its execution is pending. */
  lemma RepairBranchIff(input: ResumeInput)
    ensures InRepair(input) <==> input.repairPending && exists a, b :: input.latest.id == a + "-repair-" + b
  {
    ContainsIff(input.latest.id, "-repair-");
  }

  /** In a repair the live checkpoint alone is loaded; without a readable one there is no result. */
  lemma RepairLoadsLiveCheckpoint(input: ResumeInput, events: seq<Event>)
    requires InRepair(input)
    ensures input.liveCheckpoint.Some? ==> Loaded(input, events) == input.liveCheckpoint.value
    ensures input.liveCheckpoint.None? ==> Loaded(input, events).results == map[] && Loaded(input, events).forced == {}
  {
  }

  // ---- What popping and recording leave ----

  /** Popped items have no result and no text under their keys; every other result and text stays. */
  lemma DroppingLeaves(plan: Plan, v: StateView, gone: set<Id>)
    requires UniqueIds(plan.items)
    ensures var w := Dropped(plan, v, gone);
      && (forall n :: n in w.results <==> n in v.results && n !in gone)
      && (forall n :: n in w.results ==> w.results[n] == v.results[n])
      && (forall k :: k in w.artifacts <==>
            k in v.artifacts &&
              forall i :: 0 <= i < |plan.items| && plan.items[i].id in gone ==> plan.items[i].outputKey != k)
      && (forall k :: k in w.artifacts ==> w.artifacts[k] == v.artifacts[k])
  {
    forall k
      ensures k in OutputKeys(plan, gone)
        <==> exists i :: 0 <= i < |plan.items| && plan.items[i].id in gone && plan.items[i].outputKey == k
    {
      OutputKeyIff(plan, gone, k);
    }
  }

  lemma OutputKeyIff(plan: Plan, ids: set<Id>, k: string)
    requires UniqueIds(plan.items)
    ensures k in OutputKeys(plan, ids)
      <==> exists i :: 0 <= i < |plan.items| && plan.items[i].id in ids && plan.items[i].outputKey == k
  {
    if k in OutputKeys(plan, ids) {
      var n :| n in ids && Find(plan.items, n).Some? && Find(plan.items, n).value.outputKey == k;
    }
    if i :| 0 <= i < |plan.items| && plan.items[i].id in ids && plan.items[i].outputKey == k {
      FindAt(plan.items, i);
    }
  }

  /** A recorded completion discharges the item's mark, diagnostic and context; a failure leaves all three. */
  lemma RecordingLeaves(v: StateView, item: WorkItem, r: NodeResult, n: Id)
    ensures Recorded(v, item, r).Some? <==> r.itemId == item.id && r.agentId == item.agentId && item.id !in v.results
    ensures Recorded(v, item, r).Some? ==>
      var w := Recorded(v, item, r).value;
      && w.results == v.results[item.id := r]
      && (n in w.forced <==> n in v.forced && !(n == item.id && r.status == Completed))
      && (n in w.diagnostics <==> n in v.diagnostics && !(n == item.id && r.status == Completed))
      && (n in w.contexts <==> n in v.contexts && !(n == item.id && r.status == Completed))
  {
  }

  // ---- Texts ----

  /** The text of a result stands under its output key if no later item with that key has a result with a text. */
  lemma {:induction false} TextIsOfLastResult(items: seq<WorkItem>, results: map<Id, NodeResult>, i: nat)
    requires i < |items| && items[i].id in results && results[items[i].id].content.Some?
    requires forall j :: i < j < |items| && items[j].outputKey == items[i].outputKey ==>
               !(items[j].id in results && results[items[j].id].content.Some?)
    ensures items[i].outputKey in TextsByKey(items, results)
    ensures TextsByKey(items, results)[items[i].outputKey] == results[items[i].id].content.value
  {
    if i < |items| - 1 {
      TextIsOfLastResult(items[..|items| - 1], results, i);
    }
  }

  /** And there is no text under a key without such a result. */
  lemma {:induction false} TextNeedsResult(items: seq<WorkItem>, results: map<Id, NodeResult>, k: string)
    requires k in TextsByKey(items, results)
    ensures exists i :: 0 <= i < |items| && items[i].outputKey == k
              && items[i].id in results && results[items[i].id].content.Some?
  {
    var init, last := items[..|items| - 1], items[|items| - 1];
    if !(last.outputKey == k && last.id in results && results[last.id].content.Some?) {
      TextNeedsResult(init, results, k);
      var i :| 0 <= i < |init| && init[i].outputKey == k && init[i].id in results && results[init[i].id].content.Some?;
      assert items[i] == init[i];
    }
  }

  /** An item whose code gate failed has the gate's error as its diagnostic; nobody else's changes. */
  lemma {:induction false} GateErrorIsDiagnostic(items: seq<WorkItem>, v: StateView, e: Evidence, n: Id)
    ensures var w := GateDiagnostics(items, v, e);
      if exists i :: 0 <= i < |items| && items[i].id == n && n in v.results
           && items[i].agentId == "code_integration_agent" && e.codeGateError.Some?
      then n in w && w[n] == e.codeGateError.value
      else (n in w <==> n in v.diagnostics) && (n in w ==> w[n] == v.diagnostics[n])
  {
    if items != [] {
      var init, last := items[..|items| - 1], items[|items| - 1];
      GateErrorIsDiagnostic(init, v, e, n);
      assert forall i :: 0 <= i < |init| ==> init[i] == items[i];
    }
  }

  // ---- Log entries and marks ----

  /** Each applied record is logged once, in order, with its own stamp. */
  lemma RecordsAreLoggedOnce(records: seq<RetryRecord>, i: nat)
    requires i < |records|
    ensures |AppliedEvents(records)| == |records|
    ensures AppliedEvents(records)[i].kind == RetryRecoveryApplied
      && AppliedEvents(records)[i].retryCreatedAt == records[i].createdAt
  {
  }

  /** A scheduled architecture rerun is logged once, for its owner; nothing is logged without one. */
  lemma SchedulingIsLogged(plan: Plan, v: StateView, d: Diagnosis)
    ensures |ScheduledEvents(plan, v, d)| <= 1
    ensures |ScheduledEvents(plan, v, d)| == 1 <==> exists owner :: Reschedules(plan, v, d, owner)
    ensures forall owner :: Reschedules(plan, v, d, owner) ==>
              ScheduledEvents(plan, v, d) == [Event(ArchitectureRecoveryScheduled, owner, "")]
  {
    forall owner, other | Reschedules(plan, v, d, owner) && Reschedules(plan, v, d, other) ensures owner == other {
      assert other in {owner};
    }
  }

  /** A rerun is scheduled for an item that the diagnosis matches alone, that has completed and is not marked. */
  lemma ReschedulesIff(plan: Plan, v: StateView, d: Diagnosis, owner: Id)
    ensures Reschedules(plan, v, d, owner) <==>
      && d.Diagnosis? && owner in d.matching && owner in Ids(plan.items) && owner !in v.forced
      && owner in v.results && v.results[owner].status == Completed
      && forall n :: n in d.matching && n in Ids(plan.items) && n != owner ==>
        d.needsResult && !(n in v.results && v.results[n].status == Completed)
  {
    if Reschedules(plan, v, d, owner) {
      assert owner in Owners(plan, v, d);
      forall n | n in d.matching && n in Ids(plan.items) && n != owner
        ensures d.needsResult && !(n in v.results && v.results[n].status == Completed)
      {
        assert n !in Owners(plan, v, d);
      }
    }
  }

  predicate TakesOver(v: StateView, checkpoint: StateView, n: Id) {
    && n in checkpoint.forced && n !in v.results
    && n in checkpoint.diagnostics && checkpoint.diagnostics[n] != ""
  }

  /** Merging takes over the marks of items without a result, and their diagnostics where these are not empty. */
  lemma MergingTakesOver(v: StateView, checkpoint: StateView, n: Id)
    ensures var w := Merged(v, checkpoint);
      && w.results == v.results && w.artifacts == v.artifacts && w.contexts == v.contexts
      && (n in w.forced <==> n in v.forced || (n in checkpoint.forced && n !in v.results))
      && (TakesOver(v, checkpoint, n) ==> n in w.diagnostics && w.diagnostics[n] == checkpoint.diagnostics[n])
      && (!TakesOver(v, checkpoint, n) ==>
            && (n in w.diagnostics <==> n in v.diagnostics)
            && (n in w.diagnostics ==> w.diagnostics[n] == v.diagnostics[n]))
  {
  }

  /** A rebuilt result belongs to its item and carries the published text of its output key, or none. */
  lemma RebuiltTexts(plan: Plan, events: seq<Event>, store: map<string, string>, item: WorkItem)
    requires UniqueIds(plan.items) && item in plan.items && item.id in Rebuilt(plan, events, store).results
    ensures var r := Rebuilt(plan, events, store).results[item.id];
      && r.itemId == item.id && r.agentId == item.agentId && r.status == Completed
      && r.content == Some(if item.outputKey in store then store[item.outputKey] else "")
  {
    var i :| 0 <= i < |plan.items| && plan.items[i] == item;
    FindAt(plan.items, i);
    RebuiltKeys(plan, events, store);
    assert item.outputKey in OutputKeys(plan, Kept(DependencyGraph(plan.items), CompletedByLog(plan, events)));
  }

  // ---- Which checkpoint wins a tie ----

  /**
   Of two readable checkpoints with equally many results, more than the log gives, the live one is
   loaded for a plan of its own and the delivery one for a repair plan.
   */
  lemma TieOfCheckpoints(input: ResumeInput, events: seq<Event>)
    requires !InRepair(input) && input.liveCheckpoint.Some? && input.deliveryCheckpoint.Some?
    requires |input.liveCheckpoint.value.results| == |input.deliveryCheckpoint.value.results|
    requires |Rebuilt(input.delivery, events, input.store).results| < |input.liveCheckpoint.value.results|
    ensures var isRepair := exists a, b :: input.delivery.id == a + "-repair-" + b;
      Loaded(input, events).results
      == if isRepair then input.deliveryCheckpoint.value.results else input.liveCheckpoint.value.results
  {
    ContainsIff(input.delivery.id, "-repair-");
    var first, second := Checkpoints(input)[0], Checkpoints(input)[1];
    FirstOfTwoWins(first, second, Rebuilt(input.delivery, events, input.store));
    assert Checkpoints(input) == [first, second];
    LoadedResultsAreChosen(input, events);
  }

  lemma FirstOfTwoWins(first: StateView, second: StateView, rebuilt: StateView)
    requires |first.results| == |second.results| && |rebuilt.results| < |first.results|
    ensures Chosen([first, second], rebuilt) == first
  {
    assert [first, second][..1] == [first];
  }
}
