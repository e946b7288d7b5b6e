/** What the resume pipeline guarantees, on both of its branches and for every input. */
module ResumeTheorems {
  import opened Graphs
  import opened WorkItems
  import opened PlanAdmission
  import opened Invalidation
  import opened Resume

  /** The retry records that the log does not yet list as applied. */
  function Due(input: ResumeInput, events: seq<Event>): seq<RetryRecord> {
    Unconsumed(input.ledger.GetOr([]), Consumed(events))
  }

  /** A result worth keeping on its own: evidence holds, and nothing it depends on is blamed. */
  ghost predicate Trusted(input: ResumeInput, events: seq<Event>, n: Id) {
    TrustedIn(ResumePlan(input), Loaded(input, events), Due(input, events), input.evidence, n)
  }

  ghost predicate TrustedIn(plan: Plan, v: StateView, due: seq<RetryRecord>, e: Evidence, n: Id) {
    && n in v.results
    && Find(plan.items, n).Some? && Proven(Find(plan.items, n).value, e)
    && forall f :: f in Blamed(plan, due) ==> !ReachesOrIs(DependencyGraph(plan.items), n, f)
  }

  /** The state after retry recovery and the evidence check, before an architecture rerun. */
  ghost function Checked(input: ResumeInput, events: seq<Event>): StateView {
    Sanitized(ResumePlan(input), AfterRecords(ResumePlan(input), Loaded(input, events), Due(input, events)),
              input.evidence)
  }

  lemma ProvenSurvivorsAreTrusted(input: ResumeInput, events: seq<Event>, n: Id)
    requires UniqueIds(ResumePlan(input).items)
    ensures n in ProvenIds(ResumePlan(input),
                           AfterRecords(ResumePlan(input), Loaded(input, events), Due(input, events)), input.evidence)
      <==> Trusted(input, events, n)
  {
    ProvenAndFresh(ResumePlan(input), Loaded(input, events), Due(input, events), input.evidence, n);
  }

  lemma ProvenAndFresh(plan: Plan, v: StateView, due: seq<RetryRecord>, e: Evidence, n: Id)
    requires UniqueIds(plan.items)
    ensures n in ProvenIds(plan, AfterRecords(plan, v, due), e) <==> TrustedIn(plan, v, due, e, n)
  {
    RecordsDropStale(plan, v, due);
    if n in Ids(plan.items) {
      var i :| 0 <= i < |plan.items| && plan.items[i].id == n;
      FindAt(plan.items, i);
      StaleIff(plan.items, Blamed(plan, due), n);
    }
  }

  lemma StaleIff(items: seq<WorkItem>, seeds: set<Id>, n: Id)
    requires n in Ids(items)
    ensures n in Stale(items, seeds) <==> exists f :: f in seeds && ReachesOrIs(DependencyGraph(items), n, f)
  {
    DependencyGraphKeys(items);
  }

  /** Exactly the trusted results whose transitive dependencies are all trusted survive the check. */
  lemma CheckedKeepsTrusted(input: ResumeInput, events: seq<Event>, n: Id)
    requires UniqueIds(ResumePlan(input).items)
    ensures n in Checked(input, events).results
      <==> (Trusted(input, events, n)
            && forall m :: Reaches(DependencyGraph(ResumePlan(input).items), n, m) ==> Trusted(input, events, m))
  {
    var plan := ResumePlan(input);
    var w := AfterRecords(plan, Loaded(input, events), Due(input, events));
    forall m ensures m in ProvenIds(plan, w, input.evidence) <==> Trusted(input, events, m) {
      ProvenSurvivorsAreTrusted(input, events, m);
    }
  }

  lemma CheckedIsClosed(input: ResumeInput, events: seq<Event>)
    ensures Closed(DependencyGraph(ResumePlan(input).items), Checked(input, events).results.Keys)
    ensures Checked(input, events).results.Keys <= Ids(ResumePlan(input).items)
    ensures forall n :: n in Checked(input, events).results ==>
              n in Loaded(input, events).results
                && Checked(input, events).results[n] == Loaded(input, events).results[n]
  {
    var plan := ResumePlan(input);
    var w := AfterRecords(plan, Loaded(input, events), Due(input, events));
    var proven := ProvenIds(plan, w, input.evidence);
    RecordsDropStale(plan, Loaded(input, events), Due(input, events));
    KeptIsGreatestClosed(DependencyGraph(plan.items), proven, {});
    assert Checked(input, events).results.Keys == Kept(DependencyGraph(plan.items), proven);
  }

  /** The last step invalidates the closure of its single owner, and marks that owner only. */
  lemma PreparedForOwner(plan: Plan, v: StateView, d: Diagnosis, owner: Id)
    requires Reschedules(plan, v, d, owner)
    ensures var w := Prepared(plan, v, d);
      && w.results == v.results - Stale(plan.items, {owner})
      && w.forced == v.forced + {owner}
      && w.diagnostics == v.diagnostics[owner := d.text]
  {
    forall other | Reschedules(plan, v, d, other) ensures other == owner {
      assert other in {owner};
    }
  }

  lemma ResumedWithinChecked(input: ResumeInput, events: seq<Event>, n: Id)
    requires n in Resumed(input, events).results
    ensures n in Checked(input, events).results
      && Resumed(input, events).results[n] == Checked(input, events).results[n]
  {
    if owner :| Reschedules(ResumePlan(input), Checked(input, events), input.diagnosis, owner) {
      PreparedForOwner(ResumePlan(input), Checked(input, events), input.diagnosis, owner);
    }
  }

  lemma ResumedIsClosed(input: ResumeInput, events: seq<Event>)
    requires UniqueIds(ResumePlan(input).items)
    ensures Closed(DependencyGraph(ResumePlan(input).items), Resumed(input, events).results.Keys)
  {
    ResumedFromChecked(input, events);
    CheckedIsClosed(input, events);
    PreparedIsClosed(ResumePlan(input), Checked(input, events), input.diagnosis);
  }

  lemma PreparedIsClosed(plan: Plan, v: StateView, d: Diagnosis)
    requires v.results.Keys <= Ids(plan.items) && Closed(DependencyGraph(plan.items), v.results.Keys)
    ensures Closed(DependencyGraph(plan.items), Prepared(plan, v, d).results.Keys)
  {
    var g := DependencyGraph(plan.items);
    DependencyGraphKeys(plan.items);
    if owner :| Reschedules(plan, v, d, owner) {
      PreparedForOwner(plan, v, d, owner);
      RemovingDependentsKeepsClosed(g, g.Keys, v.results.Keys, {owner});
      assert (v.results - Stale(plan.items, {owner})).Keys == v.results.Keys - Stale(plan.items, {owner});
    }
  }

  /** What an unconsumed record names is blamed. */
  lemma UnconsumedBlames(input: ResumeInput, events: seq<Event>, r: RetryRecord, f: Id)
    requires r in input.ledger.GetOr([]) && r.createdAt !in Consumed(events) && f in Frontier(ResumePlan(input), r)
    ensures f in Blamed(ResumePlan(input), Due(input, events))
  {
    UnconsumedAll(input.ledger.GetOr([]), Consumed(events));
    var i :| 0 <= i < |Due(input, events)| && Due(input, events)[i] == r;
    BlamedAt(ResumePlan(input), Due(input, events), i);
    assert f in Elements(Frontier(ResumePlan(input), r));
  }

  /**
   The resumed results are dependency-closed, each passed its own evidence check and is the
   loaded one, and none depends on an item that an unconsumed retry record blames.
   */
  lemma ResumeIsSound(input: ResumeInput, events: seq<Event>)
    requires UniqueIds(ResumePlan(input).items)
    ensures var plan, w := ResumePlan(input), Resumed(input, events);
      && Closed(DependencyGraph(plan.items), w.results.Keys)
      && (forall n :: n in w.results ==> Trusted(input, events, n) && w.results[n] == Loaded(input, events).results[n])
      && (forall n, r, f :: n in w.results && r in input.ledger.GetOr([]) && r.createdAt !in Consumed(events)
            && f in Frontier(plan, r)
            ==> !ReachesOrIs(DependencyGraph(plan.items), n, f))
  {
    var plan, w := ResumePlan(input), Resumed(input, events);
    ResumedIsClosed(input, events);
    CheckedIsClosed(input, events);
    forall n | n in w.results ensures Trusted(input, events, n) && w.results[n] == Loaded(input, events).results[n] {
      ResumedWithinChecked(input, events, n);
      CheckedKeepsTrusted(input, events, n);
    }
    forall r, f | r in input.ledger.GetOr([]) && r.createdAt !in Consumed(events) && f in Frontier(plan, r)
      ensures f in Blamed(plan, Due(input, events))
    {
      UnconsumedBlames(input, events, r, f);
    }
  }

  /** On the delivery branch: not dependent on the owner that is scheduled to run again, if there is one. */
  ghost predicate ClearOfOwner(input: ResumeInput, events: seq<Event>, n: Id) {
    InRepair(input) || ClearIn(ResumePlan(input), Checked(input, events), input.diagnosis, n)
  }

  ghost predicate ClearIn(plan: Plan, v: StateView, d: Diagnosis, n: Id) {
    forall owner :: Reschedules(plan, v, d, owner) ==> !ReachesOrIs(DependencyGraph(plan.items), n, owner)
  }

  /**
   Nothing else is replayed. A trusted result whose dependencies are all trusted is kept, except
   that the delivery branch drops what depends on the one owner it reschedules.
   */
  lemma ResumeKeepsWhatItCan(input: ResumeInput, events: seq<Event>, n: Id)
    requires UniqueIds(ResumePlan(input).items)
    ensures var g := DependencyGraph(ResumePlan(input).items);
      n in Resumed(input, events).results <==>
        && Trusted(input, events, n)
        && (forall m :: Reaches(g, n, m) ==> Trusted(input, events, m))
        && ClearOfOwner(input, events, n)
  {
    CheckedKeepsTrusted(input, events, n);
    ResumedOutsideOwner(input, events, n);
  }

  lemma PreparedOutsideOwner(plan: Plan, v: StateView, d: Diagnosis, n: Id)
    requires v.results.Keys <= Ids(plan.items)
    ensures n in Prepared(plan, v, d).results <==> n in v.results && ClearIn(plan, v, d, n)
  {
    DependencyGraphKeys(plan.items);
    if owner :| Reschedules(plan, v, d, owner) {
      PreparedForOwner(plan, v, d, owner);
      assert forall other :: Reschedules(plan, v, d, other) ==> other in {owner};
    }
  }

  lemma ResumedFromChecked(input: ResumeInput, events: seq<Event>)
    ensures Resumed(input, events) ==
      if InRepair(input) then Checked(input, events)
        else Prepared(ResumePlan(input), Checked(input, events), input.diagnosis)
  {
  }

  lemma ResumedOutsideOwner(input: ResumeInput, events: seq<Event>, n: Id)
    ensures n in Resumed(input, events).results <==>
      n in Checked(input, events).results && ClearOfOwner(input, events, n)
  {
    ResumedFromChecked(input, events);
    CheckedIsClosed(input, events);
    PreparedOutsideOwner(ResumePlan(input), Checked(input, events), input.diagnosis, n);
  }

  // ---- Forced reruns and diagnostics ----

  /** What `RunState.from_checkpoint` guarantees of the states it returns. */
  ghost predicate WellFormed(plan: Plan, v: StateView) {
    && WellKeyed(plan, v) && AllCompleted(v)
    && v.forced !! v.results.Keys
    && v.diagnostics.Keys == v.forced
    && MarksPresentable(plan, v)
  }

  /** Every result belongs to an item of the plan and names that item and its agent. */
  predicate WellKeyed(plan: Plan, v: StateView) {
    forall n :: n in v.results ==>
      var item := Find(plan.items, n);
      item.Some? && v.results[n].itemId == n && v.results[n].agentId == item.value.agentId
  }

  predicate AllCompleted(v: StateView) {
    forall n :: n in v.results ==> v.results[n].status == Completed
  }

  /** Marks name items, and diagnostics are not blank. */
  ghost predicate MarksPresentable(plan: Plan, v: StateView) {
    && v.forced <= Ids(plan.items)
    && forall n :: n in v.diagnostics ==> !Blank(v.diagnostics[n]) && !Blank(n)
  }

  ghost predicate WellFormedInput(input: ResumeInput) {
    && (input.liveCheckpoint.Some? ==> WellFormed(ResumePlan(input), input.liveCheckpoint.value))
    && (input.deliveryCheckpoint.Some? ==> WellFormed(ResumePlan(input), input.deliveryCheckpoint.value))
  }

  lemma {:induction false} MergingKeepsMarks(plan: Plan, v: StateView, checkpoints: seq<StateView>, own: Option<nat>)
    requires WellFormed(plan, v)
    requires forall i :: 0 <= i < |checkpoints| ==> WellFormed(plan, checkpoints[i])
    ensures WellFormed(plan, MergedAll(v, checkpoints, own))
    ensures MergedAll(v, checkpoints, own).results == v.results
  {
    if checkpoints != [] {
      var init, last := checkpoints[..|checkpoints| - 1], checkpoints[|checkpoints| - 1];
      MergingKeepsMarks(plan, v, init, own);
      var w := MergedAll(v, init, own);
      assert TakenOver(last.diagnostics, last.forced - w.results.Keys).Keys == last.forced - w.results.Keys;
    }
  }

  lemma RebuiltIsWellFormed(plan: Plan, events: seq<Event>, store: map<string, string>)
    ensures WellFormed(plan, Rebuilt(plan, events, store))
  {
  }

  lemma {:induction false} MergingKeepsResults(v: StateView, checkpoints: seq<StateView>, own: Option<nat>)
    ensures MergedAll(v, checkpoints, own).results == v.results
  {
    if checkpoints != [] {
      MergingKeepsResults(v, checkpoints[..|checkpoints| - 1], own);
    }
  }

  lemma LoadedResultsAreChosen(input: ResumeInput, events: seq<Event>)
    requires !InRepair(input)
    ensures Loaded(input, events).results
      == Chosen(Checkpoints(input), Rebuilt(input.delivery, events, input.store)).results
  {
    var rebuilt := Rebuilt(input.delivery, events, input.store);
    MergingKeepsResults(Chosen(Checkpoints(input), rebuilt), Checkpoints(input), Choice(Checkpoints(input), rebuilt));
  }

  lemma LoadedIsWellFormed(input: ResumeInput, events: seq<Event>)
    requires WellFormedInput(input)
    ensures WellFormed(ResumePlan(input), Loaded(input, events))
  {
    if !InRepair(input) {
      var checkpoints := Checkpoints(input);
      var rebuilt := Rebuilt(input.delivery, events, input.store);
      RebuiltIsWellFormed(input.delivery, events, input.store);
      ChosenIsRichest(checkpoints, rebuilt, rebuilt);
      assert forall i :: 0 <= i < |checkpoints| ==> WellFormed(input.delivery, checkpoints[i]);
      MergingKeepsMarks(input.delivery, Chosen(checkpoints, rebuilt), checkpoints, Choice(checkpoints, rebuilt));
    }
  }

  lemma ResumedIsWellKeyed(input: ResumeInput, events: seq<Event>)
    requires UniqueIds(ResumePlan(input).items) && WellFormedInput(input)
    ensures WellKeyed(ResumePlan(input), Resumed(input, events)) && AllCompleted(Resumed(input, events))
  {
    LoadedIsWellFormed(input, events);
    ResumeIsSound(input, events);
  }

  /** The items that still had a result when their code gate failed. */
  ghost function FailedGateItems(input: ResumeInput, events: seq<Event>): set<Id> {
    var plan := ResumePlan(input);
    var v := AfterRecords(plan, Loaded(input, events), Due(input, events));
    set i | 0 <= i < |plan.items| && plan.items[i].id in v.results
      && GateFails(plan.items[i], input.evidence) :: plan.items[i].id
  }

  /** No marked item has a result, and the diagnostics are those of the marked and of some unmarked items. */
  ghost predicate MarksMatch(v: StateView, unmarked: set<Id>) {
    v.forced !! v.results.Keys && v.diagnostics.Keys == v.forced + unmarked && unmarked !! v.forced
  }

  lemma CheckedMarks(input: ResumeInput, events: seq<Event>)
    requires UniqueIds(ResumePlan(input).items) && WellFormedInput(input)
    ensures MarksMatch(Checked(input, events), FailedGateItems(input, events))
    ensures FailedGateItems(input, events) !! Checked(input, events).results.Keys
  {
    var plan := ResumePlan(input);
    var v := AfterRecords(plan, Loaded(input, events), Due(input, events));
    LoadedIsWellFormed(input, events);
    RecordsDropStale(plan, Loaded(input, events), Due(input, events));
    GateDiagnosticsKeys(plan.items, v, input.evidence);
    CheckedIsClosed(input, events);
    forall n | n in FailedGateItems(input, events) ensures n !in Checked(input, events).results {
      var i :| 0 <= i < |plan.items| && plan.items[i].id == n && GateFails(plan.items[i], input.evidence);
      FindAt(plan.items, i);
      CheckedKeepsTrusted(input, events, n);
    }
  }

  lemma PreparedKeepsMarks(plan: Plan, v: StateView, d: Diagnosis, unmarked: set<Id>)
    requires v.results.Keys <= Ids(plan.items) && MarksMatch(v, unmarked) && unmarked !! v.results.Keys
    ensures MarksMatch(Prepared(plan, v, d), unmarked)
  {
    if owner :| Reschedules(plan, v, d, owner) {
      DependencyGraphKeys(plan.items);
      PreparedForOwner(plan, v, d, owner);
      assert ReachesOrIs(DependencyGraph(plan.items), owner, owner);
      assert owner in Stale(plan.items, {owner});
    }
  }

  lemma ResumeMatchesMarks(input: ResumeInput, events: seq<Event>)
    requires UniqueIds(ResumePlan(input).items) && WellFormedInput(input)
    ensures MarksMatch(Resumed(input, events), FailedGateItems(input, events))
  {
    CheckedMarks(input, events);
    CheckedIsClosed(input, events);
    ResumedFromChecked(input, events);
    PreparedKeepsMarks(ResumePlan(input), Checked(input, events), input.diagnosis, FailedGateItems(input, events));
  }

  /**
   An item marked for a forced rerun never has a result. The diagnostics are exactly those of
   the marked items if and only if no code gate failed: an item whose gate failed keeps a
   diagnostic without a mark.
   */
  lemma MarksAfterResume(input: ResumeInput, events: seq<Event>, w: StateView)
    requires UniqueIds(ResumePlan(input).items) && WellFormedInput(input) && w == Resumed(input, events)
    ensures w.forced !! w.results.Keys && w.forced <= w.diagnostics.Keys
    ensures w.diagnostics.Keys == w.forced <==> FailedGateItems(input, events) == {}
  {
    ResumeMatchesMarks(input, events);
    var unmarked := FailedGateItems(input, events);
    assert forall n :: n in unmarked ==> n in w.diagnostics.Keys && n !in w.forced;
  }

  lemma {:induction false} NoFailedGateNoDiagnostic(items: seq<WorkItem>, v: StateView, e: Evidence)
    requires forall i :: 0 <= i < |items| ==> !(items[i].id in v.results && GateFails(items[i], e))
    ensures GateDiagnostics(items, v, e) == v.diagnostics
  {
    if items != [] {
      NoFailedGateNoDiagnostic(items[..|items| - 1], v, e);
    }
  }

  /** Without a failed gate, the marks of a resumed state are as presentable as those it was loaded with. */
  lemma MarksStayPresentable(input: ResumeInput, events: seq<Event>)
    requires UniqueIds(ResumePlan(input).items) && WellFormedInput(input) && FailedGateItems(input, events) == {}
    requires input.diagnosis.Diagnosis? ==> !Blank(input.diagnosis.text)
    requires forall item :: item in ResumePlan(input).items ==> !Blank(item.id)
    ensures MarksPresentable(ResumePlan(input), Resumed(input, events))
  {
    var plan := ResumePlan(input);
    var v := AfterRecords(plan, Loaded(input, events), Due(input, events));
    LoadedIsWellFormed(input, events);
    RecordsDropStale(plan, Loaded(input, events), Due(input, events));
    forall i | 0 <= i < |plan.items|
      ensures !(plan.items[i].id in v.results && GateFails(plan.items[i], input.evidence))
    {
      assert plan.items[i].id !in FailedGateItems(input, events);
    }
    NoFailedGateNoDiagnostic(plan.items, v, input.evidence);
    CheckedIsClosed(input, events);
    ResumedFromChecked(input, events);
    PreparedStaysPresentable(plan, Checked(input, events), input.diagnosis);
  }

  lemma PreparedStaysPresentable(plan: Plan, v: StateView, d: Diagnosis)
    requires MarksPresentable(plan, v) && v.results.Keys <= Ids(plan.items)
    requires d.Diagnosis? ==> !Blank(d.text)
    requires forall item :: item in plan.items ==> !Blank(item.id)
    ensures MarksPresentable(plan, Prepared(plan, v, d))
  {
    if owner :| Reschedules(plan, v, d, owner) {
      PreparedForOwner(plan, v, d, owner);
      var i :| 0 <= i < |plan.items| && plan.items[i].id == owner;
      assert !Blank(plan.items[i].id);
    }
  }

  // ---- The same, said of what was loaded ----

  /** Trusted together with everything it depends on. */
  ghost predicate Outlasts(input: ResumeInput, events: seq<Event>, n: Id) {
    Trusted(input, events, n) &&
      forall m :: Reaches(DependencyGraph(ResumePlan(input).items), n, m) ==> Trusted(input, events, m)
  }

  ghost function OutlastingIds(input: ResumeInput, events: seq<Event>): set<Id> {
    set n | n in Loaded(input, events).results && Outlasts(input, events, n)
  }

  /** The items the diagnosis may blame: those it matches, and that are in `proven` where a result is required. */
  function OwnersAmong(ids: set<Id>, d: Diagnosis, proven: set<Id>): set<Id> {
    if d.NoDiagnosis? then {} else set n | n in ids && n in d.matching && (d.needsResult ==> n in proven)
  }

  ghost function LoadedOwners(input: ResumeInput, events: seq<Event>): set<Id> {
    OwnersAmong(Ids(ResumePlan(input).items), input.diagnosis, OutlastingIds(input, events))
  }

  ghost predicate RerunsOwner(input: ResumeInput, events: seq<Event>, owner: Id) {
    && !InRepair(input) && LoadedOwners(input, events) == {owner}
    && owner !in Loaded(input, events).forced && Outlasts(input, events, owner)
  }

  ghost predicate Survives(input: ResumeInput, events: seq<Event>, n: Id) {
    Outlasts(input, events, n)
    && forall owner :: RerunsOwner(input, events, owner)
         ==> !ReachesOrIs(DependencyGraph(ResumePlan(input).items), n, owner)
  }

  lemma OwnersOfCompleted(plan: Plan, v: StateView, d: Diagnosis)
    requires AllCompleted(v)
    ensures Owners(plan, v, d) == OwnersAmong(Ids(plan.items), d, v.results.Keys)
  {
  }

  lemma CheckedIsOutlasting(input: ResumeInput, events: seq<Event>)
    requires UniqueIds(ResumePlan(input).items)
    ensures Checked(input, events).results.Keys == OutlastingIds(input, events)
  {
    forall n ensures n in Checked(input, events).results <==> n in OutlastingIds(input, events) {
      CheckedKeepsTrusted(input, events, n);
    }
  }

  lemma CheckedMarksAreLoaded(input: ResumeInput, events: seq<Event>)
    requires WellFormedInput(input)
    ensures Checked(input, events).forced == Loaded(input, events).forced
    ensures AllCompleted(Checked(input, events))
  {
    LoadedIsWellFormed(input, events);
    CheckedIsClosed(input, events);
    RecordsDropStale(ResumePlan(input), Loaded(input, events), Due(input, events));
  }

  lemma OwnersOfLoaded(input: ResumeInput, events: seq<Event>)
    requires UniqueIds(ResumePlan(input).items) && WellFormedInput(input)
    ensures Owners(ResumePlan(input), Checked(input, events), input.diagnosis) == LoadedOwners(input, events)
  {
    CheckedMarksAreLoaded(input, events);
    CheckedIsOutlasting(input, events);
    OwnersOfCompleted(ResumePlan(input), Checked(input, events), input.diagnosis);
  }

  lemma ReschedulesLoadedOwner(input: ResumeInput, events: seq<Event>, owner: Id)
    requires UniqueIds(ResumePlan(input).items) && WellFormedInput(input)
    ensures !InRepair(input) && Reschedules(ResumePlan(input), Checked(input, events), input.diagnosis, owner)
      <==> RerunsOwner(input, events, owner)
  {
    OwnersOfLoaded(input, events);
    CheckedMarksAreLoaded(input, events);
    CheckedKeepsTrusted(input, events, owner);
  }

  /** Which results survive, as a condition on the loaded state, the records, the evidence and the diagnosis. */
  lemma ResumedIffSurvives(input: ResumeInput, events: seq<Event>, n: Id)
    requires UniqueIds(ResumePlan(input).items) && WellFormedInput(input)
    ensures n in Resumed(input, events).results <==> Survives(input, events, n)
  {
    ResumeKeepsWhatItCan(input, events, n);
    forall owner
      ensures !InRepair(input) && Reschedules(ResumePlan(input), Checked(input, events), input.diagnosis, owner)
        <==> RerunsOwner(input, events, owner)
    {
      ReschedulesLoadedOwner(input, events, owner);
    }
  }

  /** A code gate fails for a loaded result that no unconsumed record blames. */
  ghost predicate GateHits(input: ResumeInput, events: seq<Event>, n: Id) {
    GateHitsIn(ResumePlan(input), Loaded(input, events), Due(input, events), input.evidence, n)
  }

  ghost predicate GateHitsIn(plan: Plan, v: StateView, due: seq<RetryRecord>, e: Evidence, n: Id) {
    && n in v.results
    && Find(plan.items, n).Some? && GateFails(Find(plan.items, n).value, e)
    && forall f :: f in Blamed(plan, due) ==> !ReachesOrIs(DependencyGraph(plan.items), n, f)
  }

  lemma FailedGateIff(input: ResumeInput, events: seq<Event>, n: Id)
    requires UniqueIds(ResumePlan(input).items)
    ensures n in FailedGateItems(input, events) <==> GateHits(input, events, n)
  {
    var plan, due := ResumePlan(input), Due(input, events);
    RecordsDropStale(plan, Loaded(input, events), due);
    if n in Ids(plan.items) {
      var i :| 0 <= i < |plan.items| && plan.items[i].id == n;
      FindAt(plan.items, i);
      StaleIff(plan.items, Blamed(plan, due), n);
    }
  }
}
