/**
 The checkpoints written while a plan runs: results are recorded one at a time, failed ones
 included, and code-wave repairs take results away and mark items. Which of these checkpoints
 can be read back.
 */
module RunCheckpoints {
  import opened Graphs
  import opened WorkItems
  import opened PlanAdmission
  import opened Invalidation
  import opened Resume
  import opened ResumeTheorems
  import opened Checkpoints

  datatype Step =
    | Record(item: WorkItem, result: NodeResult)
    | Repair(related: seq<Id>, texts: Id -> string)

  ghost predicate IsStep(plan: Plan, v: StateView, step: Step, v': StateView) {
    match step
    case Record(item, result) => item in plan.items && Recorded(v, item, result) == Some(v')
    case Repair(related, texts) => v' == CodeWaveRepaired(plan, v, RerunIds(plan, related), texts)
  }

  /**
   What a run starts from: results and marks belong to items of the plan, every marked item has a
   diagnostic, and no completed one has. Other items may have diagnostics too, as after a failed gate.
   */
  ghost predicate Startable(plan: Plan, v: StateView) {
    && WellKeyed(plan, v) && v.forced <= Ids(plan.items) && v.forced <= v.diagnostics.Keys
    && v.diagnostics.Keys !! CompletedOf(v)
  }

  /** The items with a diagnostic that nothing marks. */
  function Unmarked(v: StateView): set<Id> {
    v.diagnostics.Keys - v.forced
  }

  ghost predicate IsRun(plan: Plan, states: seq<StateView>, steps: seq<Step>) {
    && |states| == |steps| + 1 && Startable(plan, states[0])
    && forall k :: 0 <= k < |steps| ==> IsStep(plan, states[k], steps[k], states[k + 1])
  }

  /** A run can begin in every such state, and go on by every step. */
  lemma RunsGoOn(plan: Plan, states: seq<StateView>, steps: seq<Step>, step: Step, v: StateView)
    ensures Startable(plan, v) ==> IsRun(plan, [v], [])
    ensures IsRun(plan, states, steps) && IsStep(plan, states[|steps|], step, v)
      ==> IsRun(plan, states + [v], steps + [step])
  {
    if IsRun(plan, states, steps) && IsStep(plan, states[|steps|], step, v) {
      var states', steps' := states + [v], steps + [step];
      forall k | 0 <= k < |steps'| ensures IsStep(plan, states'[k], steps'[k], states'[k + 1]) {
        assert k < |steps| ==> steps'[k] == steps[k] && states'[k] == states[k] && states'[k + 1] == states[k + 1];
      }
    }
  }

  /** The items that a step records as completed or schedules for repair. */
  function SettledBy(plan: Plan, step: Step): set<Id> {
    match step
    case Record(item, result) => if result.status == Completed then {item.id} else {}
    case Repair(related, _) => Elements(RerunIds(plan, related))
  }

  function Settled(plan: Plan, steps: seq<Step>): set<Id> {
    if steps == [] then {} else Settled(plan, steps[..|steps| - 1]) + SettledBy(plan, steps[|steps| - 1])
  }

  lemma RecordedCompleted(v: StateView, item: WorkItem, r: NodeResult)
    requires Recorded(v, item, r).Some?
    ensures CompletedOf(Recorded(v, item, r).value) == CompletedOf(v) + if r.status == Completed then {item.id} else {}
  {
    var w := Recorded(v, item, r).value;
    assert w.results == v.results[item.id := r] && item.id !in v.results;
    forall n ensures n in CompletedOf(w) <==> n in CompletedOf(v) || (n == item.id && r.status == Completed) {
    }
  }

  /** Recording keeps marks in step: a completed result discharges its mark, a failed one does not. */
  lemma RecordKeepsMarks(v: StateView, item: WorkItem, r: NodeResult)
    requires v.forced !! CompletedOf(v) && v.diagnostics.Keys == v.forced && Recorded(v, item, r).Some?
    ensures var w := Recorded(v, item, r).value;
      w.forced !! CompletedOf(w) && w.diagnostics.Keys == w.forced
  {
    RecordedCompleted(v, item, r);
  }

  lemma RecordKeepsWellKeyed(plan: Plan, v: StateView, item: WorkItem, r: NodeResult)
    requires UniqueIds(plan.items) && WellKeyed(plan, v) && item in plan.items && Recorded(v, item, r).Some?
    ensures WellKeyed(plan, Recorded(v, item, r).value)
    ensures Recorded(v, item, r).value.forced <= v.forced
  {
    var i :| 0 <= i < |plan.items| && plan.items[i] == item;
    FindAt(plan.items, i);
    assert Recorded(v, item, r).value.results == v.results[item.id := r];
  }

  lemma RecordKeepsStartable(plan: Plan, v: StateView, item: WorkItem, r: NodeResult)
    requires UniqueIds(plan.items) && Startable(plan, v) && item in plan.items && Recorded(v, item, r).Some?
    ensures Startable(plan, Recorded(v, item, r).value)
    ensures Unmarked(Recorded(v, item, r).value) == Unmarked(v) - if r.status == Completed then {item.id} else {}
  {
    RecordKeepsWellKeyed(plan, v, item, r);
    RecordedCompleted(v, item, r);
  }

  lemma RepairKeepsStartable(plan: Plan, v: StateView, related: seq<Id>, texts: Id -> string)
    requires Startable(plan, v)
    ensures Startable(plan, CodeWaveRepaired(plan, v, RerunIds(plan, related), texts))
    ensures Unmarked(CodeWaveRepaired(plan, v, RerunIds(plan, related), texts))
      == Unmarked(v) - Elements(RerunIds(plan, related))
  {
    var rerun := RerunIds(plan, related);
    RepairedResults(plan, v, rerun, texts);
    RerunIdsAreItems(plan, related);
    BoundedByStale(plan.items, Elements(rerun));
    RepairedDiagnostics(plan, v, rerun, texts);
  }

  lemma RepairedDiagnostics(plan: Plan, v: StateView, rerun: seq<Id>, texts: Id -> string)
    ensures var w := CodeWaveRepaired(plan, v, rerun, texts);
      w.forced == v.forced + Elements(rerun) && w.diagnostics.Keys == v.diagnostics.Keys + Elements(rerun)
  {
  }

  lemma StepSettles(plan: Plan, v: StateView, step: Step, v': StateView)
    requires UniqueIds(plan.items) && Startable(plan, v) && IsStep(plan, v, step, v')
    ensures Startable(plan, v') && Unmarked(v') == Unmarked(v) - SettledBy(plan, step)
  {
    match step
    case Record(item, result) => RecordKeepsStartable(plan, v, item, result);
    case Repair(related, texts) => RepairKeepsStartable(plan, v, related, texts);
  }

  /** What is unmarked at any moment was so at the start, and has not been settled since. */
  lemma {:induction false} RunSettles(plan: Plan, states: seq<StateView>, steps: seq<Step>, k: nat)
    requires UniqueIds(plan.items) && IsRun(plan, states, steps) && k <= |steps|
    ensures Startable(plan, states[k])
    ensures Unmarked(states[k]) == Unmarked(states[0]) - Settled(plan, steps[..k])
  {
    if k > 0 {
      var j := k - 1;
      RunSettles(plan, states, steps, j);
      assert IsStep(plan, states[j], steps[j], states[j + 1]);
      StepSettles(plan, states[j], steps[j], states[j + 1]);
      assert steps[..k][..j] == steps[..j];
    }
  }

  /**
   At every moment of every run, whatever failed and was repaired, the checkpoint written then
   can be read back if and only if no two completed items share an output key, no diagnostic is
   blank, and every item that had an unmarked diagnostic at the start has since been recorded as
   completed or scheduled for repair.
   */
  lemma RunCheckpointReadableIff(plan: Plan, states: seq<StateView>, steps: seq<Step>, k: nat, c: Checkpoint)
    requires UniqueIds(plan.items) && forall item :: item in plan.items ==> !Blank(item.id)
    requires IsRun(plan, states, steps) && k <= |steps| && IsCheckpointOf(c, plan, states[k])
    ensures Readable(plan, c) <==>
      && DistinctOutputs(plan, CompletedOf(states[k]))
      && (forall n :: n in states[k].diagnostics ==> !Blank(states[k].diagnostics[n]))
      && Unmarked(states[0]) <= Settled(plan, steps[..k])
  {
    RunSettles(plan, states, steps, k);
    StartableReadableIff(plan, states[k], c);
    NoneOutside(Unmarked(states[0]), Settled(plan, steps[..k]));
  }

  lemma StartableReadableIff(plan: Plan, v: StateView, c: Checkpoint)
    requires UniqueIds(plan.items) && forall item :: item in plan.items ==> !Blank(item.id)
    requires Startable(plan, v) && IsCheckpointOf(c, plan, v)
    ensures Readable(plan, c) <==>
      && DistinctOutputs(plan, CompletedOf(v))
      && (forall n :: n in v.diagnostics ==> !Blank(v.diagnostics[n]))
      && Unmarked(v) == {}
  {
    CheckpointReadableIff(c, plan, v);
    StartableMarksValidIff(plan, v, c);
  }

  lemma StartableMarksValidIff(plan: Plan, v: StateView, c: Checkpoint)
    requires forall item :: item in plan.items ==> !Blank(item.id)
    requires Startable(plan, v) && c.forced == v.forced && c.diagnostics == v.diagnostics
    ensures MarksValid(plan, c, CompletedOf(v))
      <==> (forall n :: n in v.diagnostics ==> !Blank(v.diagnostics[n])) && Unmarked(v) == {}
  {
    forall n | n in v.forced ensures !Blank(n) {
      var i :| 0 <= i < |plan.items| && plan.items[i].id == n;
      assert plan.items[i] in plan.items;
    }
    NoneOutside(v.diagnostics.Keys, v.forced);
  }

  lemma NoneOutside(a: set<Id>, b: set<Id>)
    ensures a - b == {} <==> a <= b
  {
    if a - b == {} {
      forall n | n in a ensures n in b {
        assert n !in a - b;
      }
    }
  }

  // ---- Where runs start ----

  /** A state that was read back leaves nothing unmarked. */
  lemma ReadStateStartsRun(plan: Plan, v: StateView)
    requires WellFormed(plan, v)
    ensures Startable(plan, v) && Unmarked(v) == {}
  {
  }

  lemma ResumedForcedAreItems(input: ResumeInput, events: seq<Event>)
    requires UniqueIds(ResumePlan(input).items) && WellFormedInput(input)
    ensures Resumed(input, events).forced <= Ids(ResumePlan(input).items)
  {
    LoadedIsWellFormed(input, events);
    CheckedMarksAreLoaded(input, events);
    CheckedIsClosed(input, events);
    ResumedFromChecked(input, events);
    PreparedForcedAreItems(ResumePlan(input), Checked(input, events), input.diagnosis);
  }

  lemma PreparedForcedAreItems(plan: Plan, v: StateView, d: Diagnosis)
    requires v.forced <= Ids(plan.items) && v.results.Keys <= Ids(plan.items)
    ensures Prepared(plan, v, d).forced <= Ids(plan.items)
  {
    if owner :| Reschedules(plan, v, d, owner) {
      PreparedForOwner(plan, v, d, owner);
    }
  }

  /** The Worker runs from the state that the resume returns; what it leaves unmarked are the items of failed gates. */
  lemma ResumedStateStartsRun(input: ResumeInput, events: seq<Event>, w: StateView)
    requires UniqueIds(ResumePlan(input).items) && WellFormedInput(input) && w == Resumed(input, events)
    ensures Startable(ResumePlan(input), w) && Unmarked(w) == FailedGateItems(input, events)
  {
    ResumedIsWellKeyed(input, events);
    ResumedForcedAreItems(input, events);
    ResumeMatchesMarks(input, events);
    CheckedMarks(input, events);
    forall n | n in w.results ensures n !in FailedGateItems(input, events) {
      ResumedWithinChecked(input, events, n);
    }
    MatchedMarksStart(ResumePlan(input), w, FailedGateItems(input, events));
  }

  lemma MatchedMarksStart(plan: Plan, w: StateView, unmarked: set<Id>)
    requires WellKeyed(plan, w) && w.forced <= Ids(plan.items) && MarksMatch(w, unmarked) && unmarked !! w.results.Keys
    ensures Startable(plan, w) && Unmarked(w) == unmarked
  {
  }
}
