/**
 A trace is resumed twice: the API loads the state, applies the retry records and saves the
 result, and the Worker then loads again from what was saved. When the second load gives the
 results of the first.
 */
module ResumeTwice {
  import opened Graphs
  import opened WorkItems
  import opened PlanAdmission
  import opened Invalidation
  import opened Resume
  import opened ResumeTheorems
  import Format = Checkpoints

  /** What the second load reads: the same plan for both branches, and the saved state, if it is readable. */
  function Later(input: ResumeInput, saved: Option<StateView>): ResumeInput {
    input.(latest := ResumePlan(input), delivery := ResumePlan(input), liveCheckpoint := saved)
  }

  /** The first load's log, and events that tell of no outcome. */
  ghost predicate LaterLog(input: ResumeInput, events: seq<Event>, later: seq<Event>) {
    LogAfter(input, events) <= later && forall i :: |events| <= i < |later| ==> !Terminal(later[i].kind)
  }

  /** What was saved reads back well-formed, with the results of the first load. */
  ghost predicate SavedFrom(input: ResumeInput, events: seq<Event>, saved: Option<StateView>) {
    saved.Some? ==>
      && WellFormed(ResumePlan(input), saved.value)
      && saved.value.results.Keys == Resumed(input, events).results.Keys
  }

  /** That is so for every checkpoint of the first load's state that can be read back. */
  lemma ReadCheckpointIsSaved(input: ResumeInput, events: seq<Event>, c: Format.Checkpoint, v: StateView)
    requires UniqueIds(ResumePlan(input).items) && WellFormedInput(input)
    requires Format.IsCheckpointOf(c, ResumePlan(input), Resumed(input, events))
      && Format.Readable(ResumePlan(input), c)
    requires Format.HoldsCompleted(v.results, c.nodeResults) && v.forced == c.forced && v.diagnostics == c.diagnostics
    ensures SavedFrom(input, events, Some(v))
  {
    ResumedIsWellKeyed(input, events);
    Format.ReadStatesAreWellFormed(ResumePlan(input), c, v);
    Format.ReadsCompletedResults(c, ResumePlan(input), Resumed(input, events), v);
  }

  ghost predicate SecondLoad(input: ResumeInput, events: seq<Event>, saved: Option<StateView>, later: seq<Event>) {
    && UniqueIds(ResumePlan(input).items) && WellFormedInput(input)
    && SavedFrom(input, events, saved) && LaterLog(input, events, later)
    && InRepair(Later(input, saved)) == InRepair(input)
  }

  // ---- Nothing is due any more, and the log tells the same outcomes ----

  lemma ConsumedGrows(events: seq<Event>, later: seq<Event>)
    requires events <= later
    ensures Consumed(events) <= Consumed(later)
  {
    ConsumedStays(events, later[|events|..]);
    assert events + later[|events|..] == later;
  }

  lemma NothingUnconsumedLater(records: seq<RetryRecord>, events: seq<Event>, later: seq<Event>)
    requires events + AppliedEvents(Unconsumed(records, Consumed(events))) <= later
    ensures Unconsumed(records, Consumed(later)) == []
  {
    var due := Unconsumed(records, Consumed(events));
    UnconsumedAll(records, Consumed(events));
    ConsumedGrows(events, later);
    ConsumedGrows(events + AppliedEvents(due), later);
    forall k | 0 <= k < |records| ensures records[k].createdAt in Consumed(later) {
      if records[k].createdAt !in Consumed(events) {
        assert records[k] in due;
        var i :| 0 <= i < |due| && due[i] == records[k];
        AppliedAreConsumed(events, due, i);
      }
    }
    NothingUnconsumed(records, Consumed(later));
  }

  lemma NothingDueLater(input: ResumeInput, events: seq<Event>, saved: Option<StateView>, later: seq<Event>)
    requires LaterLog(input, events, later)
    ensures Due(Later(input, saved), later) == []
  {
    assert events + AppliedEvents(Due(input, events)) <= LogAfter(input, events);
    NothingUnconsumedLater(input.ledger.GetOr([]), events, later);
  }

  lemma {:induction false} SameOutcomes(events: seq<Event>, later: seq<Event>, n: Id)
    requires events <= later && forall i :: |events| <= i < |later| ==> !Terminal(later[i].kind)
    ensures LastTerminal(later, n) == LastTerminal(events, n)
  {
    if |later| == |events| {
      assert later == events;
    } else {
      SameOutcomes(events, later[..|later| - 1], n);
    }
  }

  lemma RebuiltTheSame(plan: Plan, store: map<string, string>, events: seq<Event>, later: seq<Event>)
    requires events <= later && forall i :: |events| <= i < |later| ==> !Terminal(later[i].kind)
    ensures Rebuilt(plan, later, store) == Rebuilt(plan, events, store)
  {
    forall n ensures n in CompletedByLog(plan, later) <==> n in CompletedByLog(plan, events) {
      SameOutcomes(events, later, n);
    }
    assert CompletedByLog(plan, later) == CompletedByLog(plan, events);
  }

  lemma QuietEvents(events: seq<Event>, due: seq<RetryRecord>, tail: seq<Event>)
    requires forall i :: 0 <= i < |tail| ==> !Terminal(tail[i].kind)
    ensures forall i :: |events| <= i < |events + AppliedEvents(due) + tail|
              ==> !Terminal((events + AppliedEvents(due) + tail)[i].kind)
  {
  }

  lemma SchedulingIsQuiet(plan: Plan, v: StateView, d: Diagnosis)
    ensures forall i :: 0 <= i < |ScheduledEvents(plan, v, d)| ==> !Terminal(ScheduledEvents(plan, v, d)[i].kind)
  {
  }

  /** The resume itself logs no outcome either, so a second load may follow at once. */
  lemma LogAfterIsLater(input: ResumeInput, events: seq<Event>)
    ensures LaterLog(input, events, LogAfter(input, events))
  {
    var scheduled := ScheduledEvents(ResumePlan(input), Checked(input, events), input.diagnosis);
    SchedulingIsQuiet(ResumePlan(input), Checked(input, events), input.diagnosis);
    QuietEvents(events, Due(input, events), if InRepair(input) then [] else scheduled);
    assert LogAfter(input, events)
        == events + AppliedEvents(Due(input, events)) + if InRepair(input) then [] else scheduled;
  }

  // ---- When the second load agrees ----

  lemma SurvivorsAreClosed(input: ResumeInput, events: seq<Event>, n: Id, m: Id)
    requires UniqueIds(ResumePlan(input).items) && WellFormedInput(input)
    requires n in Resumed(input, events).results && ReachesOrIs(DependencyGraph(ResumePlan(input).items), n, m)
    ensures m in Resumed(input, events).results && Survives(input, events, m)
  {
    ResumeIsSound(input, events);
    if n != m {
      ClosedKeepsReachable(DependencyGraph(ResumePlan(input).items), Resumed(input, events).results.Keys, n, m);
    }
    ResumedIffSurvives(input, events, m);
  }

  lemma LaterIsWellFormed(input: ResumeInput, events: seq<Event>, saved: Option<StateView>, later: seq<Event>)
    requires SecondLoad(input, events, saved, later)
    ensures WellFormedInput(Later(input, saved)) && ResumePlan(Later(input, saved)) == ResumePlan(input)
  {
  }

  lemma KeptResultOutlasts(input: ResumeInput, events: seq<Event>, saved: Option<StateView>, later: seq<Event>, n: Id)
    requires SecondLoad(input, events, saved, later) && n in Resumed(input, events).results
    requires Resumed(input, events).results.Keys <= Loaded(Later(input, saved), later).results.Keys
    ensures Outlasts(Later(input, saved), later, n)
  {
    var g := DependencyGraph(ResumePlan(input).items);
    LaterIsWellFormed(input, events, saved, later);
    NothingDueLater(input, events, saved, later);
    forall m | ReachesOrIs(g, n, m) ensures Trusted(Later(input, saved), later, m) {
      SurvivorsAreClosed(input, events, n, m);
    }
    assert ReachesOrIs(g, n, n);
  }

  /** When something that could be blamed keeps its result, nothing was scheduled, so all that outlasts survives. */
  lemma OwnerWasKept(input: ResumeInput, events: seq<Event>, owner: Id, m: Id)
    requires UniqueIds(ResumePlan(input).items) && WellFormedInput(input)
    requires owner in LoadedOwners(input, events) && owner in Resumed(input, events).results
    requires Outlasts(input, events, m)
    ensures m in Resumed(input, events).results
  {
    ResumedIffSurvives(input, events, owner);
    ResumedIffSurvives(input, events, m);
    assert ReachesOrIs(DependencyGraph(ResumePlan(input).items), owner, owner);
  }

  lemma SingleOwnerBefore(ids: set<Id>, d: Diagnosis, before: set<Id>, after: set<Id>, owner: Id)
    requires OwnersAmong(ids, d, after) == {owner} && owner in before && before <= after
    ensures OwnersAmong(ids, d, before) == {owner}
  {
    assert owner in OwnersAmong(ids, d, after);
  }

  /** An item that the second load would schedule again is not among the results of the first. */
  lemma RerunOwnerWasNotKept(input: ResumeInput, events: seq<Event>, saved: Option<StateView>, later: seq<Event>,
                             owner: Id)
    requires SecondLoad(input, events, saved, later) && RerunsOwner(Later(input, saved), later, owner)
    requires Resumed(input, events).results.Keys <= Loaded(Later(input, saved), later).results.Keys
    ensures owner !in Resumed(input, events).results
  {
    if owner in Resumed(input, events).results {
      var ids := Ids(ResumePlan(input).items);
      LaterIsWellFormed(input, events, saved, later);
      SurvivorsAreClosed(input, events, owner, owner);
      LoadedIsWellFormed(input, events);
      assert owner in OwnersAmong(ids, input.diagnosis, OutlastingIds(Later(input, saved), later));
      assert owner in OutlastingIds(input, events);
      assert owner in LoadedOwners(input, events);
      forall m | m in OutlastingIds(input, events) ensures m in OutlastingIds(Later(input, saved), later) {
        OwnerWasKept(input, events, owner, m);
        KeptResultOutlasts(input, events, saved, later, m);
      }
      SingleOwnerBefore(ids, input.diagnosis, OutlastingIds(input, events), OutlastingIds(Later(input, saved), later),
                        owner);
      OwnerRerunIsDropped(input, events, owner);
    }
  }

  lemma OwnerRerunIsDropped(input: ResumeInput, events: seq<Event>, owner: Id)
    requires UniqueIds(ResumePlan(input).items) && WellFormedInput(input) && RerunsOwner(input, events, owner)
    ensures owner !in Resumed(input, events).results
  {
    ResumedIffSurvives(input, events, owner);
    assert ReachesOrIs(DependencyGraph(ResumePlan(input).items), owner, owner);
  }

  /** The view of the results that is durable by then: the saved state in a repair, else the richest of all three. */
  ghost function DurableView(input: ResumeInput, events: seq<Event>, saved: Option<StateView>): StateView {
    if InRepair(input) then saved.GetOr(EMPTY_VIEW)
    else Chosen(Checkpoints(Later(input, saved)), Rebuilt(ResumePlan(input), events, input.store))
  }

  lemma LaterRebuildsTheSame(input: ResumeInput, events: seq<Event>, later: seq<Event>)
    requires LaterLog(input, events, later)
    ensures Rebuilt(ResumePlan(input), later, input.store) == Rebuilt(ResumePlan(input), events, input.store)
  {
    assert events <= LogAfter(input, events);
    RebuiltTheSame(ResumePlan(input), input.store, events, later);
  }

  lemma LoadsSavedView(input: ResumeInput, saved: Option<StateView>, later: seq<Event>)
    requires InRepair(Later(input, saved))
    ensures Loaded(Later(input, saved), later) == saved.GetOr(EMPTY_VIEW)
  {
  }

  lemma LoadsDurableView(input: ResumeInput, events: seq<Event>, saved: Option<StateView>, later: seq<Event>)
    requires LaterLog(input, events, later) && InRepair(Later(input, saved)) == InRepair(input)
    ensures Loaded(Later(input, saved), later).results == DurableView(input, events, saved).results
  {
    if InRepair(input) {
      LoadsSavedView(input, saved, later);
    } else {
      LaterRebuildsTheSame(input, events, later);
      LoadedResultsAreChosen(Later(input, saved), later);
    }
  }

  /** The view has a result of this item, and its evidence holds. */
  ghost predicate Supported(plan: Plan, view: StateView, e: Evidence, m: Id) {
    m in view.results && Find(plan.items, m).Some? && Proven(Find(plan.items, m).value, e)
  }

  /** The item is, or depends on, one that the view has no result of or whose evidence is gone. */
  ghost predicate RestsOnUnsupported(plan: Plan, view: StateView, e: Evidence, n: Id) {
    exists m :: ReachesOrIs(DependencyGraph(plan.items), n, m) && !Supported(plan, view, e, m)
  }

  lemma TrustedIffSupported(plan: Plan, v: StateView, view: StateView, e: Evidence, m: Id)
    requires v.results == view.results
    ensures TrustedIn(plan, v, [], e, m) <==> Supported(plan, view, e, m)
  {
    assert Blamed(plan, []) == {};
  }

  lemma TrustedLaterIff(input: ResumeInput, events: seq<Event>, saved: Option<StateView>, later: seq<Event>, m: Id)
    requires LaterLog(input, events, later) && InRepair(Later(input, saved)) == InRepair(input)
    requires ResumePlan(Later(input, saved)) == ResumePlan(input)
    ensures Trusted(Later(input, saved), later, m)
      <==> Supported(ResumePlan(input), DurableView(input, events, saved), input.evidence, m)
  {
    LoadsDurableView(input, events, saved, later);
    NothingDueLater(input, events, saved, later);
    TrustedIffSupported(ResumePlan(input), Loaded(Later(input, saved), later), DurableView(input, events, saved),
                        input.evidence, m);
  }

  lemma OutlastsIffSupported(input: ResumeInput, events: seq<Event>, saved: Option<StateView>, later: seq<Event>, n: Id)
    requires SecondLoad(input, events, saved, later)
    ensures Outlasts(Later(input, saved), later, n)
      <==> !RestsOnUnsupported(ResumePlan(input), DurableView(input, events, saved), input.evidence, n)
  {
    LaterIsWellFormed(input, events, saved, later);
    forall m
      ensures Trusted(Later(input, saved), later, m)
        <==> Supported(ResumePlan(input), DurableView(input, events, saved), input.evidence, m)
    {
      TrustedLaterIff(input, events, saved, later, m);
    }
    assert ReachesOrIs(DependencyGraph(ResumePlan(input).items), n, n);
  }

  /** The item is, or depends on, the one that the second load schedules to run again. */
  ghost predicate RestsOnRerun(input: ResumeInput, saved: Option<StateView>, later: seq<Event>, n: Id) {
    exists owner :: RerunsOwner(Later(input, saved), later, owner)
      && ReachesOrIs(DependencyGraph(ResumePlan(input).items), n, owner)
  }

  lemma AgreesIffFurtherAreLost(input: ResumeInput, events: seq<Event>, saved: Option<StateView>, later: seq<Event>)
    requires SecondLoad(input, events, saved, later)
    ensures var first, view := Resumed(input, events).results.Keys, DurableView(input, events, saved);
      var survivors := Resumed(Later(input, saved), later).results.Keys;
      survivors == first <==>
        first <= view.results.Keys && forall n :: n in view.results.Keys - first ==> n !in survivors
  {
    var first, view := Resumed(input, events).results.Keys, DurableView(input, events, saved);
    LoadsDurableView(input, events, saved, later);
    LaterSurvivors(input, events, saved, later);
    if first <= view.results.Keys {
      FirstSurvives(input, events, saved, later);
    }
    SameSet(Resumed(Later(input, saved), later).results.Keys, view.results.Keys, first);
  }

  /**
   The second load gives the results of the first if and only if the view that is durable by then
   holds them all, and each further result in it rests on an item that the view has no result of
   or whose evidence is gone, or on the one item that the second load schedules to run again.
   */
  lemma SecondLoadAgreesIff(input: ResumeInput, events: seq<Event>, saved: Option<StateView>, later: seq<Event>)
    requires SecondLoad(input, events, saved, later)
    ensures var first, view := Resumed(input, events).results.Keys, DurableView(input, events, saved);
      Resumed(Later(input, saved), later).results.Keys == first <==>
        && first <= view.results.Keys
        && forall n :: n in view.results.Keys - first ==>
          RestsOnUnsupported(ResumePlan(input), view, input.evidence, n) || RestsOnRerun(input, saved, later, n)
  {
    var first, view := Resumed(input, events).results.Keys, DurableView(input, events, saved);
    var survivors := Resumed(Later(input, saved), later).results.Keys;
    AgreesIffFurtherAreLost(input, events, saved, later);
    forall n | n in view.results.Keys - first ensures n !in survivors
      <==> RestsOnUnsupported(ResumePlan(input), view, input.evidence, n) || RestsOnRerun(input, saved, later, n)
    {
      SurvivesIffRests(input, events, saved, later, n);
    }
  }

  lemma SurvivesIffRests(input: ResumeInput, events: seq<Event>, saved: Option<StateView>, later: seq<Event>, n: Id)
    requires SecondLoad(input, events, saved, later)
    ensures n in Resumed(Later(input, saved), later).results <==>
      && !RestsOnUnsupported(ResumePlan(input), DurableView(input, events, saved), input.evidence, n)
      && !RestsOnRerun(input, saved, later, n)
  {
    LaterIsWellFormed(input, events, saved, later);
    ResumedIffSurvives(Later(input, saved), later, n);
    OutlastsIffSupported(input, events, saved, later, n);
  }

  /** Without a diagnosis nothing is scheduled, so only support counts. */
  lemma NothingRerunsUndiagnosed(input: ResumeInput, saved: Option<StateView>, later: seq<Event>, n: Id)
    requires input.diagnosis == NoDiagnosis
    ensures !RestsOnRerun(input, saved, later, n)
  {
    forall owner ensures !RerunsOwner(Later(input, saved), later, owner) {
      assert owner in {owner} && owner !in LoadedOwners(Later(input, saved), later);
    }
  }

  lemma SameSet(survivors: set<Id>, loaded: set<Id>, first: set<Id>)
    requires survivors <= loaded && (first <= loaded ==> first <= survivors)
    ensures survivors == first <==> first <= loaded && forall n :: n in loaded - first ==> n !in survivors
  {
    if first <= loaded && forall n :: n in loaded - first ==> n !in survivors {
      assert survivors <= first;
    }
  }

  lemma LaterSurvivors(input: ResumeInput, events: seq<Event>, saved: Option<StateView>, later: seq<Event>)
    requires SecondLoad(input, events, saved, later)
    ensures var second := Later(input, saved);
      && (forall n :: n in Resumed(second, later).results <==> Survives(second, later, n))
      && Resumed(second, later).results.Keys <= Loaded(second, later).results.Keys
  {
    var second := Later(input, saved);
    LaterIsWellFormed(input, events, saved, later);
    ResumeIsSound(second, later);
    forall n ensures n in Resumed(second, later).results <==> Survives(second, later, n) {
      ResumedIffSurvives(second, later, n);
    }
    forall n | n in Resumed(second, later).results ensures n in Loaded(second, later).results {
      assert Trusted(second, later, n);
    }
  }

  lemma FirstSurvives(input: ResumeInput, events: seq<Event>, saved: Option<StateView>, later: seq<Event>)
    requires SecondLoad(input, events, saved, later)
    requires Resumed(input, events).results.Keys <= Loaded(Later(input, saved), later).results.Keys
    ensures Resumed(input, events).results.Keys <= Resumed(Later(input, saved), later).results.Keys
  {
    LaterSurvivors(input, events, saved, later);
    forall n | n in Resumed(input, events).results ensures n in Resumed(Later(input, saved), later).results {
      KeptResultSurvives(input, events, saved, later, n);
    }
  }

  lemma KeptResultSurvives(input: ResumeInput, events: seq<Event>, saved: Option<StateView>, later: seq<Event>, n: Id)
    requires SecondLoad(input, events, saved, later) && n in Resumed(input, events).results
    requires Resumed(input, events).results.Keys <= Loaded(Later(input, saved), later).results.Keys
    ensures Survives(Later(input, saved), later, n)
  {
    LaterIsWellFormed(input, events, saved, later);
    KeptResultOutlasts(input, events, saved, later, n);
    forall owner | RerunsOwner(Later(input, saved), later, owner)
      ensures !ReachesOrIs(DependencyGraph(ResumePlan(input).items), n, owner)
    {
      RerunOwnerWasNotKept(input, events, saved, later, owner);
      if ReachesOrIs(DependencyGraph(ResumePlan(input).items), n, owner) {
        SurvivorsAreClosed(input, events, n, owner);
      }
    }
  }

  /**
   In a repair the saved state is all there is, so the results stay if it could be read back and
   are all lost if it could not. In a delivery they stay if the saved state is readable and has
   more results than the rebuilt state and the delivery checkpoint.
   */
  lemma SavedStateWins(input: ResumeInput, events: seq<Event>, saved: Option<StateView>, later: seq<Event>)
    requires SecondLoad(input, events, saved, later)
    ensures InRepair(input) && saved.Some?
      ==> Resumed(Later(input, saved), later).results.Keys == Resumed(input, events).results.Keys
    ensures InRepair(input) && saved.None? ==> Resumed(Later(input, saved), later).results == map[]
    ensures !InRepair(input) && saved.Some? && SavedIsRichest(input, events, saved.value)
            ==> Resumed(Later(input, saved), later).results.Keys == Resumed(input, events).results.Keys
  {
    SecondLoadAgreesIff(input, events, saved, later);
    LoadsDurableView(input, events, saved, later);
    LaterSurvivors(input, events, saved, later);
    if !InRepair(input) && saved.Some? && SavedIsRichest(input, events, saved.value) {
      SavedStateIsChosen(input, events, saved.value, later);
    }
  }

  lemma RichestIsChosen(checkpoints: seq<StateView>, rebuilt: StateView, v: StateView)
    requires v in checkpoints && |rebuilt.results| < |v.results|
    requires forall u :: u in checkpoints ==> u == v || |u.results| < |v.results|
    ensures Chosen(checkpoints, rebuilt) == v
  {
    ChosenIsRichest(checkpoints, rebuilt, v);
  }

  /** The saved state has more results than anything else that is durable. */
  ghost predicate SavedIsRichest(input: ResumeInput, events: seq<Event>, saved: StateView) {
    && |Rebuilt(ResumePlan(input), events, input.store).results| < |saved.results|
    && (input.deliveryCheckpoint.Some? ==> |input.deliveryCheckpoint.value.results| < |saved.results|)
  }

  lemma LaterCheckpoints(input: ResumeInput, saved: StateView, u: StateView)
    ensures u in Checkpoints(Later(input, Some(saved))) <==> u == saved || input.deliveryCheckpoint == Some(u)
  {
  }

  lemma SavedStateIsChosen(input: ResumeInput, events: seq<Event>, saved: StateView, later: seq<Event>)
    requires LaterLog(input, events, later) && !InRepair(Later(input, Some(saved)))
      && SavedIsRichest(input, events, saved)
    ensures Loaded(Later(input, Some(saved)), later).results == saved.results
  {
    var second := Later(input, Some(saved));
    var checkpoints, rebuilt := Checkpoints(second), Rebuilt(ResumePlan(input), later, input.store);
    RebuiltTheSame(ResumePlan(input), input.store, events, later);
    forall u | u in checkpoints ensures u == saved || |u.results| < |saved.results| {
      LaterCheckpoints(input, saved, u);
    }
    LaterCheckpoints(input, saved, saved);
    RichestIsChosen(checkpoints, rebuilt, saved);
    LoadedResultsAreChosen(second, later);
  }

  // ---- A second load that undoes the first ----

  const BUILD := WorkItem("build", "code_agent", "implementation", "implementation", [], Exclusive, [],
                          None, None, None, None, [], [], "contract")

  const BUILD_PLAN := Plan("plan", "goal", [BUILD], None, "process", "trace", "run")

  /** One item that completed, according to the log, and that a retry record then blames. */
  const BLAMED_INPUT :=
    ResumeInput(BUILD_PLAN, false, BUILD_PLAN, None, None, Some([RetryRecord("then", Some("build"), [])]),
                                    Evidence({}, {}, None), NoDiagnosis, map[])

  const BUILD_LOG := [Event(ItemCompleted, "build", "")]

  const NOTHING_SAVED := StateView(map[], map[], {}, map[], map[])

  lemma BuildWasCompleted(later: seq<Event>)
    requires BUILD_LOG <= later && forall i :: |BUILD_LOG| <= i < |later| ==> !Terminal(later[i].kind)
    ensures Rebuilt(BUILD_PLAN, later, map[]).results.Keys == {"build"}
  {
    var g := DependencyGraph(BUILD_PLAN.items);
    RebuiltTheSame(BUILD_PLAN, map[], BUILD_LOG, later);
    assert BUILD_PLAN.items[0] == BUILD;
    assert CompletedByLog(BUILD_PLAN, BUILD_LOG) == {"build"};
    assert BUILD_PLAN.items[..0] == [] && g["build"] == {};
    assert Closed(g, {"build"});
    KeptIsGreatestClosed(g, {"build"}, {"build"});
    FindAt(BUILD_PLAN.items, 0);
  }

  lemma RecordBlamesBuild(record: RetryRecord)
    requires record.root == Some("build") && record.interrupted == []
    ensures Frontier(BUILD_PLAN, record) == ["build"]
  {
    FindAt(BUILD_PLAN.items, 0);
    assert [record.root.value] + record.interrupted == ["build"];
    assert InPlan(BUILD_PLAN, []) == [];
  }

  lemma OnlyBuildIsLoaded(n: Id)
    ensures n in Loaded(BLAMED_INPUT, BUILD_LOG).results ==> n == "build"
  {
    BuildWasCompleted(BUILD_LOG);
    LoadedResultsAreChosen(BLAMED_INPUT, BUILD_LOG);
  }

  lemma BuildIsDropped()
    ensures WellFormedInput(BLAMED_INPUT)
    ensures Resumed(BLAMED_INPUT, BUILD_LOG).results == map[]
  {
    var record := BLAMED_INPUT.ledger.value[0];
    assert record in BLAMED_INPUT.ledger.value && Consumed(BUILD_LOG) == {};
    RecordBlamesBuild(record);
    ResumeIsSound(BLAMED_INPUT, BUILD_LOG);
    forall n ensures n !in Resumed(BLAMED_INPUT, BUILD_LOG).results {
      OnlyBuildIsLoaded(n);
      if n in Resumed(BLAMED_INPUT, BUILD_LOG).results {
        assert Trusted(BLAMED_INPUT, BUILD_LOG, n);
        assert ReachesOrIs(DependencyGraph(BUILD_PLAN.items), n, "build");
      }
    }
  }

  /** What the second load of this trace would read, whatever state was saved without a result. */
  lemma BuildIsLoadedAgain(later: seq<Event>)
    requires LaterLog(BLAMED_INPUT, BUILD_LOG, later)
    ensures Loaded(Later(BLAMED_INPUT, Some(NOTHING_SAVED)), later).results.Keys == {"build"}
  {
    var second := Later(BLAMED_INPUT, Some(NOTHING_SAVED));
    BuildWasCompleted(later);
    LoadedResultsAreChosen(second, later);
    assert Checkpoints(second) == [NOTHING_SAVED];
  }

  lemma TrustedWhenNothingIsDue(input: ResumeInput, events: seq<Event>, n: Id)
    requires Due(input, events) == [] && n in Loaded(input, events).results
    requires Find(ResumePlan(input).items, n).Some? && Proven(Find(ResumePlan(input).items, n).value, input.evidence)
    ensures Trusted(input, events, n)
  {
    assert Blamed(ResumePlan(input), []) == {};
  }

  lemma BuildIsTrustedAgain(later: seq<Event>)
    requires LaterLog(BLAMED_INPUT, BUILD_LOG, later)
    ensures Trusted(Later(BLAMED_INPUT, Some(NOTHING_SAVED)), later, "build")
  {
    BuildIsLoadedAgain(later);
    NothingDueLater(BLAMED_INPUT, BUILD_LOG, Some(NOTHING_SAVED), later);
    FindAt(BUILD_PLAN.items, 0);
    TrustedWhenNothingIsDue(Later(BLAMED_INPUT, Some(NOTHING_SAVED)), later, "build");
  }

  /** A trusted result that depends on nothing survives when nothing is diagnosed. */
  lemma TrustedLeafSurvives(input: ResumeInput, events: seq<Event>, n: Id)
    requires UniqueIds(ResumePlan(input).items) && input.diagnosis == NoDiagnosis
    requires Trusted(input, events, n) && Next(DependencyGraph(ResumePlan(input).items), n) == {}
    ensures n in Resumed(input, events).results
  {
    var g := DependencyGraph(ResumePlan(input).items);
    forall m ensures !Reaches(g, n, m) {
      if Reaches(g, n, m) {
        var first := FirstEdge(g, n, m);
      }
    }
    ResumeKeepsWhatItCan(input, events, n);
  }

  lemma BuildIsSaved(later: seq<Event>)
    requires LaterLog(BLAMED_INPUT, BUILD_LOG, later)
    ensures SecondLoad(BLAMED_INPUT, BUILD_LOG, Some(NOTHING_SAVED), later)
  {
    BuildIsDropped();
    NothingSavedIsWellFormed(BUILD_PLAN);
    assert SavedFrom(BLAMED_INPUT, BUILD_LOG, Some(NOTHING_SAVED));
  }

  lemma NothingSavedIsWellFormed(plan: Plan)
    ensures WellFormed(plan, NOTHING_SAVED)
  {
  }

  lemma BuildComesBack(later: seq<Event>)
    requires LaterLog(BLAMED_INPUT, BUILD_LOG, later)
    ensures "build" in Resumed(Later(BLAMED_INPUT, Some(NOTHING_SAVED)), later).results
  {
    BuildIsTrustedAgain(later);
    assert BUILD_PLAN.items[..0] == [] && Next(DependencyGraph(BUILD_PLAN.items), "build") == {};
    TrustedLeafSurvives(Later(BLAMED_INPUT, Some(NOTHING_SAVED)), later, "build");
  }

  /**
   The first load takes the blamed result away and the saved state is read back without it, but
   the second load, to which the record counts as consumed, finds the rebuilt state richer.
   */
  lemma SecondLoadCanUndoTheFirst()
    ensures SecondLoad(BLAMED_INPUT, BUILD_LOG, Some(NOTHING_SAVED), LogAfter(BLAMED_INPUT, BUILD_LOG))
    ensures "build" !in Resumed(BLAMED_INPUT, BUILD_LOG).results
    ensures "build" in Resumed(Later(BLAMED_INPUT, Some(NOTHING_SAVED)), LogAfter(BLAMED_INPUT, BUILD_LOG)).results
  {
    LogAfterIsLater(BLAMED_INPUT, BUILD_LOG);
    BuildIsDropped();
    BuildIsSaved(LogAfter(BLAMED_INPUT, BUILD_LOG));
    BuildComesBack(LogAfter(BLAMED_INPUT, BUILD_LOG));
  }
}
