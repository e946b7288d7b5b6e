/**
 A Worker that dies right after it scheduled a code-wave repair. The repair writes only the
 delivery checkpoint; the live one still holds the state from before. Whether the next load keeps
 what the repair scheduled.
 */
module RepairReload {
  import opened Graphs
  import opened WorkItems
  import opened PlanAdmission
  import opened Invalidation
  import opened Resume
  import opened ResumeTheorems
  import ResumeTwice
  import Format = Checkpoints

  /** `view` reads back a checkpoint of `v`. */
  ghost predicate ReadsBack(plan: Plan, v: StateView, view: StateView) {
    WellFormed(plan, view) && view.results.Keys == Format.CompletedOf(v) && view.forced == v.forced
  }

  /** The next load finds the state before the repair, if it can be read, and the repaired state. */
  ghost predicate CrashedAfterRepair(input: ResumeInput, v: StateView, rerun: seq<Id>, texts: Id -> string) {
    var plan := input.delivery;
    && !InRepair(input) && UniqueIds(plan.items) && v.results.Keys <= Ids(plan.items)
    && (input.liveCheckpoint.Some? ==> ReadsBack(plan, v, input.liveCheckpoint.value))
    && input.deliveryCheckpoint.Some?
    && ReadsBack(plan, Format.CodeWaveRepaired(plan, v, rerun, texts), input.deliveryCheckpoint.value)
  }

  /** The larger of the two checkpoints: the one from before the repair, unless it cannot be read. */
  ghost function CheckpointedIds(input: ResumeInput, v: StateView, rerun: seq<Id>, texts: Id -> string): set<Id> {
    if input.liveCheckpoint.Some? then Format.CompletedOf(v)
    else Format.CompletedOf(Format.CodeWaveRepaired(input.delivery, v, rerun, texts))
  }

  /** The items with a result after the load: those of the log if there are at least as many. */
  ghost function ReloadedIds(input: ResumeInput, events: seq<Event>, v: StateView, rerun: seq<Id>,
                             texts: Id -> string): set<Id> {
    var rebuilt, checkpointed :=
        Rebuilt(input.delivery, events, input.store).results.Keys, CheckpointedIds(input, v, rerun, texts);
    if |rebuilt| >= |checkpointed| then rebuilt else checkpointed
  }

  lemma SmallerOrSame(a: set<Id>, b: set<Id>)
    requires a <= b
    ensures |a| <= |b| && (|a| == |b| ==> a == b)
  {
    if a != b {
      SmallerSet(a, b);
    }
  }

  /** A load chooses the rebuilt state or the larger checkpoint. */
  lemma SizeOfKeys(v: StateView)
    ensures |v.results| == |v.results.Keys|
  {
  }

  lemma ChosenOfTwo(checkpoints: seq<StateView>, rebuilt: StateView, large: StateView, small: StateView)
    requires forall u :: u in checkpoints <==> u == large || u == small
    requires small.results.Keys <= large.results.Keys
    ensures Chosen(checkpoints, rebuilt).results.Keys ==
      if |rebuilt.results.Keys| >= |large.results.Keys| then rebuilt.results.Keys else large.results.Keys
  {
    assert large in checkpoints && small in checkpoints;
    SmallerOrSame(small.results.Keys, large.results.Keys);
    ChosenIsRichest(checkpoints, rebuilt, large);
    ChosenIsRichest(checkpoints, rebuilt, rebuilt);
    SizeOfKeys(rebuilt);
    SizeOfKeys(large);
    SizeOfKeys(small);
  }

  lemma LoadedOfTwo(input: ResumeInput, events: seq<Event>, before: StateView, repaired: StateView)
    requires !InRepair(input) && input.deliveryCheckpoint == Some(repaired)
    requires input.liveCheckpoint == Some(before) || (input.liveCheckpoint == None && before == repaired)
    requires repaired.results.Keys <= before.results.Keys
    ensures var rebuilt := Rebuilt(input.delivery, events, input.store).results.Keys;
      Loaded(input, events).results.Keys == if |rebuilt| >= |before.results.Keys| then rebuilt else before.results.Keys
  {
    var checkpoints, rebuilt := Checkpoints(input), Rebuilt(input.delivery, events, input.store);
    forall u ensures u in checkpoints <==> u == before || u == repaired {
      TriedCheckpoints(input, u);
    }
    ChosenOfTwo(checkpoints, rebuilt, before, repaired);
    LoadedResultsAreChosen(input, events);
  }

  lemma ReloadedResults(input: ResumeInput, events: seq<Event>, v: StateView, rerun: seq<Id>, texts: Id -> string)
    requires CrashedAfterRepair(input, v, rerun, texts)
    ensures Loaded(input, events).results.Keys == ReloadedIds(input, events, v, rerun, texts)
  {
    var repaired := input.deliveryCheckpoint.value;
    Format.RepairedResults(input.delivery, v, rerun, texts);
    LoadedOfTwo(input, events, if input.liveCheckpoint.Some? then input.liveCheckpoint.value else repaired, repaired);
  }

  lemma TriedCheckpoints(input: ResumeInput, u: StateView)
    ensures u in Checkpoints(input) <==> input.liveCheckpoint == Some(u) || input.deliveryCheckpoint == Some(u)
  {
  }

  /** A checkpoint's mark of an item without a result is taken over. */
  lemma {:induction false} MarkIsMerged(v: StateView, checkpoints: seq<StateView>, own: Option<nat>, i: nat, r: Id)
    requires i < |checkpoints| && r in checkpoints[i].forced && r !in v.results
    requires own == Some(i) ==> r in v.forced
    ensures r in MergedAll(v, checkpoints, own).forced
  {
    var last := |checkpoints| - 1;
    MergingKeepsResults(v, checkpoints[..last], own);
    if i == last && own == Some(i) {
      MarksStay(v, checkpoints[..last], own, r);
    } else if i < last {
      MarkIsMerged(v, checkpoints[..last], own, i, r);
    }
  }

  lemma {:induction false} MarksStay(v: StateView, checkpoints: seq<StateView>, own: Option<nat>, r: Id)
    requires r in v.forced
    ensures r in MergedAll(v, checkpoints, own).forced
  {
    if checkpoints != [] {
      MarksStay(v, checkpoints[..|checkpoints| - 1], own, r);
    }
  }

  lemma LoadMergesMark(input: ResumeInput, events: seq<Event>, checkpoint: StateView, r: Id)
    requires !InRepair(input) && checkpoint in Checkpoints(input) && r in checkpoint.forced
      && r !in Loaded(input, events).results
    ensures r in Loaded(input, events).forced
  {
    var checkpoints, rebuilt := Checkpoints(input), Rebuilt(input.delivery, events, input.store);
    var i :| 0 <= i < |checkpoints| && checkpoints[i] == checkpoint;
    LoadedResultsAreChosen(input, events);
    MarkIsMerged(Chosen(checkpoints, rebuilt), checkpoints, Choice(checkpoints, rebuilt), i, r);
  }

  /**
   A scheduled code rerun survives the next load, without a result and with its mark, if and only
   if neither the log, when it completes at least as many items, nor else the checkpoint from
   before the repair has a result of it. Otherwise the old result is back and the mark is gone.
   */
  lemma RerunSurvivesLoadIff(input: ResumeInput, events: seq<Event>, v: StateView, related: seq<Id>,
                             texts: Id -> string, r: Id)
    requires CrashedAfterRepair(input, v, Format.RerunIds(input.delivery, related), texts)
    requires r in Format.RerunIds(input.delivery, related)
    ensures var reloaded := ReloadedIds(input, events, v, Format.RerunIds(input.delivery, related), texts);
      && (r !in Loaded(input, events).results && r in Loaded(input, events).forced <==> r !in reloaded)
      && (r in reloaded ==> r in Loaded(input, events).results && r !in Loaded(input, events).forced)
  {
    var rerun := Format.RerunIds(input.delivery, related);
    ReloadedResults(input, events, v, rerun, texts);
    LoadedIsWellFormed(input, events);
    if r !in Loaded(input, events).results {
      assert r in Format.CodeWaveRepaired(input.delivery, v, rerun, texts).forced;
      LoadMergesMark(input, events, input.deliveryCheckpoint.value, r);
    }
  }

  // ---- A repair that the next load undoes ----

  const BUILT := StateView(
    map["build" := NodeResult("build", "code_agent", Completed, None)], map["implementation" := ""], {}, map[], map[])

  const REPAIRED := StateView(map[], map[], {"build"}, map["build" := "import broken"], map[])

  const RELOAD := ResumeInput(ResumeTwice.BUILD_PLAN, false, ResumeTwice.BUILD_PLAN, Some(BUILT), Some(REPAIRED), None,
                              Evidence({}, {}, None), NoDiagnosis, map[])

  lemma BuildIsRepaired(texts: Id -> string)
    ensures Format.RerunIds(ResumeTwice.BUILD_PLAN, ["build"]) == ["build"]
    ensures CrashedAfterRepair(RELOAD, BUILT, ["build"], texts)
  {
    var plan := ResumeTwice.BUILD_PLAN;
    FindAt(plan.items, 0);
    assert ["build"][1..] == [] && Format.RerunIds(plan, []) == [];
    assert Elements(["build"]) == {"build"} && "build" in Ids(plan.items);
    BoundedByStale(plan.items, {"build"});
    Format.RepairedResults(plan, BUILT, ["build"], texts);
    BothAreWellFormed();
  }

  lemma BothAreWellFormed()
    ensures WellFormed(ResumeTwice.BUILD_PLAN, BUILT) && WellFormed(ResumeTwice.BUILD_PLAN, REPAIRED)
  {
    FindAt(ResumeTwice.BUILD_PLAN.items, 0);
    assert !IsSpace("build"[0]) && !IsSpace("import broken"[0]) && "build"[0] in "build"
        && "import broken"[0] in "import broken";
  }

  lemma BuildIsReloaded(rerun: seq<Id>, texts: Id -> string)
    ensures "build" in ReloadedIds(RELOAD, ResumeTwice.BUILD_LOG, BUILT, rerun, texts)
  {
    ResumeTwice.BuildWasCompleted(ResumeTwice.BUILD_LOG);
  }

  /** The code item that was to run again is completed and unmarked after the load. */
  lemma LoadCanUndoTheRepair(texts: Id -> string)
    ensures CrashedAfterRepair(RELOAD, BUILT, Format.RerunIds(ResumeTwice.BUILD_PLAN, ["build"]), texts)
    ensures "build" in Format.RerunIds(ResumeTwice.BUILD_PLAN, ["build"])
    ensures "build" in Loaded(RELOAD, ResumeTwice.BUILD_LOG).results
    ensures "build" !in Loaded(RELOAD, ResumeTwice.BUILD_LOG).forced
  {
    BuildIsRepaired(texts);
    BuildIsReloaded(["build"], texts);
    RerunSurvivesLoadIff(RELOAD, ResumeTwice.BUILD_LOG, BUILT, ["build"], texts, "build");
  }
}
