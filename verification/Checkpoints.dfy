/**
 The code-wave repair that prepares a state for a rerun and checkpoints it, and the checkpoint
 format itself: which states survive being written and read back.
 */
module Checkpoints {
  import opened Graphs
  import opened WorkItems
  import opened PlanAdmission
  import opened Invalidation
  import opened Resume
  import opened ResumeTheorems

  // ---- Code-wave repair ----

  /** The related items of a failed integration that are code items of this plan, in order. */
  function RerunIds(plan: Plan, related: seq<Id>): seq<Id> {
    if related == [] then [] else
      var item := Find(plan.items, related[0]);
      (if item.Some? && item.value.agentId == "code_agent" then [related[0]] else []) + RerunIds(plan, related[1..])
  }

  lemma {:induction false} RerunIdsAreItems(plan: Plan, related: seq<Id>)
    ensures Elements(RerunIds(plan, related)) <= Ids(plan.items)
  {
    if related != [] {
      RerunIdsAreItems(plan, related[1..]);
      var head := if Find(plan.items, related[0]).Some? && Find(plan.items, related[0]).value.agentId == "code_agent"
          then [related[0]] else [];
      ElementsConcat(head, RerunIds(plan, related[1..]));
    }
  }

  function DiagnosticsFor(rerun: seq<Id>, texts: Id -> string): map<Id, string> {
    map n | n in Elements(rerun) :: texts(n)
  }

  method MarkForRerun(state: RunState, rerun: seq<Id>, texts: Id -> string)
    modifies state`forced, state`diagnostics
    ensures state.forced == old(state.forced) + Elements(rerun)
    ensures state.diagnostics == old(state.diagnostics) + DiagnosticsFor(rerun, texts)
  {
    for i := 0 to |rerun|
      invariant state.forced == old(state.forced) + Elements(rerun[..i])
      invariant state.diagnostics == old(state.diagnostics) + DiagnosticsFor(rerun[..i], texts)
    {
      MarkOneMore(old(state.diagnostics), rerun, i, texts);
      state.forced := state.forced + {rerun[i]};
      state.diagnostics := state.diagnostics[rerun[i] := texts(rerun[i])];
    }
    assert rerun[..|rerun|] == rerun;
  }

  lemma MarkOneMore(diagnostics: map<Id, string>, rerun: seq<Id>, i: nat, texts: Id -> string)
    requires i < |rerun|
    ensures Elements(rerun[..i + 1]) == Elements(rerun[..i]) + {rerun[i]}
    ensures diagnostics + DiagnosticsFor(rerun[..i + 1], texts)
      == (diagnostics + DiagnosticsFor(rerun[..i], texts))[rerun[i] := texts(rerun[i])]
  {
    assert rerun[..i + 1] == rerun[..i] + [rerun[i]];
    ElementsConcat(rerun[..i], [rerun[i]]);
    assert Elements([rerun[i]]) == {rerun[i]};
  }

  ghost function CodeWaveRepaired(plan: Plan, v: StateView, rerun: seq<Id>, texts: Id -> string): StateView {
    if rerun == [] then v else
      var w := Dropped(plan, v, Stale(plan.items, Elements(rerun)));
      w.(forced := w.forced + Elements(rerun), diagnostics := w.diagnostics + DiagnosticsFor(rerun, texts))
  }

  /**
   Invalidates the descendant closure of the attributed code items in rounds and marks those
   items, each with its own diagnostic text.
   */
  method ScheduleCodeReruns(log: TraceLog, state: RunState, related: seq<Id>, texts: Id -> string)
    returns (rerun: seq<Id>)
    requires UniqueIds(state.plan.items)
    modifies log, state
    ensures rerun == RerunIds(state.plan, related)
    ensures state.View() == CodeWaveRepaired(state.plan, old(state.View()), rerun, texts)
    ensures log.events == old(log.events) + if rerun == [] then [] else [Event(CodeWaveRepairScheduled, "", "")]
  {
    rerun := RerunIds(state.plan, related);
    if rerun == [] {
      return;
    }
    RerunIdsAreItems(state.plan, related);
    var affected := InvalidateInRounds(state.plan.items, Elements(rerun));
    state.Drop(affected);
    MarkForRerun(state, rerun, texts);
    log.RecordEvent(Event(CodeWaveRepairScheduled, "", ""));
  }

  function CompletedOf(v: StateView): set<Id> {
    set n | n in v.results && v.results[n].status == Completed
  }

  lemma RepairedResults(plan: Plan, v: StateView, rerun: seq<Id>, texts: Id -> string)
    requires v.results.Keys <= Ids(plan.items)
    ensures var w := CodeWaveRepaired(plan, v, rerun, texts);
      && w.results == v.results - Stale(plan.items, Elements(rerun))
      && CompletedOf(w) == CompletedOf(v) - Stale(plan.items, Elements(rerun))
  {
    if rerun == [] {
      assert Stale(plan.items, {}) == {};
    }
  }

  /**
   The repair keeps a closed set of results closed, and a closed set of completed results too,
   although the failed integration still has its own result when the repair begins.
   */
  lemma CodeWaveRepairKeepsClosed(plan: Plan, v: StateView, rerun: seq<Id>, texts: Id -> string)
    requires v.results.Keys <= Ids(plan.items)
    ensures var g, w := DependencyGraph(plan.items), CodeWaveRepaired(plan, v, rerun, texts);
      && (Closed(g, v.results.Keys) ==> Closed(g, w.results.Keys))
      && (Closed(g, CompletedOf(v)) ==> Closed(g, CompletedOf(w)))
  {
    var g := DependencyGraph(plan.items);
    RepairedResults(plan, v, rerun, texts);
    DependencyGraphKeys(plan.items);
    if Closed(g, v.results.Keys) {
      RemovingDependentsKeepsClosed(g, g.Keys, v.results.Keys, Elements(rerun));
      assert (v.results - Stale(plan.items, Elements(rerun))).Keys
          == v.results.Keys - Stale(plan.items, Elements(rerun));
    }
    if Closed(g, CompletedOf(v)) {
      RemovingDependentsKeepsClosed(g, g.Keys, CompletedOf(v), Elements(rerun));
    }
  }

  /**
   It keeps, unchanged, exactly the results that depend on no rerun item. So an integration that
   failed on what a rerun item delivered loses its result, and independent producers keep theirs.
   */
  lemma CodeWaveRepairKeepsIndependent(plan: Plan, v: StateView, rerun: seq<Id>, texts: Id -> string, n: Id)
    requires v.results.Keys <= Ids(plan.items)
    ensures var w := CodeWaveRepaired(plan, v, rerun, texts);
      && (n in w.results
          <==> (n in v.results && forall r :: r in rerun ==> !ReachesOrIs(DependencyGraph(plan.items), n, r)))
      && (n in w.results ==> w.results[n] == v.results[n])
  {
    RepairedResults(plan, v, rerun, texts);
    if n in v.results {
      StaleIff(plan.items, Elements(rerun), n);
    }
  }

  /**
   Marks and diagnostics stay in step, whatever results had failed, and no rerun item keeps a
   result of any kind.
   */
  lemma CodeWaveRepairKeepsMarks(plan: Plan, v: StateView, related: seq<Id>, texts: Id -> string)
    requires v.results.Keys <= Ids(plan.items) && v.forced !! CompletedOf(v) && v.diagnostics.Keys == v.forced
    ensures var rerun, w := RerunIds(plan, related), CodeWaveRepaired(plan, v, RerunIds(plan, related), texts);
      && w.forced !! CompletedOf(w) && w.diagnostics.Keys == w.forced
      && w.forced == v.forced + Elements(rerun)
      && Elements(rerun) !! w.results.Keys
  {
    var rerun := RerunIds(plan, related);
    RerunIdsAreItems(plan, related);
    BoundedByStale(plan.items, Elements(rerun));
    RepairedResults(plan, v, rerun, texts);
  }

  // ---- The checkpoint format ----

  /** `digest` is the item's contract digest; historical checkpoints lack it. */
  datatype Reference = Reference(item: Id, digest: Option<string>)

  /**
   A serialized state: results in some order, and one reference per output key. Checkpoints of
   the old format have inline texts by output key, and no references at all.
   */
  datatype Checkpoint = Checkpoint(
    planId: Id,
    traceId: string,
    nodeResults: seq<NodeResult>,
    inlineTexts: map<string, string>,
    artifactRefs: Option<map<string, Reference>>,
    forced: set<Id>,
    diagnostics: map<Id, string>)

  function ReferenceTo(item: WorkItem): Reference {
    Reference(item.id, Some(item.contractDigest))
  }

  /** One entry per output key of a completed item; the last such item in plan order owns it. */
  function RefsOf(items: seq<WorkItem>, completed: set<Id>): map<string, Reference> {
    if items == [] then map[] else
      var before, last := RefsOf(items[..|items| - 1], completed), items[|items| - 1];
      if last.id in completed then before[last.outputKey := ReferenceTo(last)] else before
  }

  function ItemsOf(refs: map<string, Reference>): set<Id> {
    set k | k in refs :: refs[k].item
  }

  function Summary(r: NodeResult): NodeResult {
    r.(content := None)
  }

  ghost function Summaries(v: StateView, ids: set<Id>): set<NodeResult> {
    set n | n in ids && n in v.results :: Summary(v.results[n])
  }

  predicate Distinct(rows: seq<NodeResult>) {
    forall i, j :: 0 <= i < j < |rows| ==> rows[i] != rows[j]
  }

  /** The rows are the summaries of the results of `ids`, each once, in some order. */
  ghost predicate RowsAre(v: StateView, rows: seq<NodeResult>, ids: set<Id>) {
    Distinct(rows) && forall r :: r in rows <==> r in Summaries(v, ids)
  }

  lemma RowAppended(plan: Plan, v: StateView, rows: seq<NodeResult>, todo: set<Id>, id: Id)
    requires WellKeyed(plan, v) && id in todo && todo <= v.results.Keys && RowsAre(v, rows, v.results.Keys - todo)
    ensures RowsAre(v, rows + [Summary(v.results[id])], v.results.Keys - (todo - {id}))
  {
    var done := v.results.Keys - todo;
    forall r | r in rows ensures r.itemId != id {
      assert r in Summaries(v, done);
    }
    assert v.results.Keys - (todo - {id}) == done + {id};
    assert Summaries(v, done + {id}) == Summaries(v, done) + {Summary(v.results[id])};
  }

  /** `c` is a serialization of `v`: contents are dropped, the order of the results is free. */
  ghost predicate IsCheckpointOf(c: Checkpoint, plan: Plan, v: StateView) {
    && c.planId == plan.id && c.traceId == plan.traceId
    && RowsAre(v, c.nodeResults, v.results.Keys)
    && c.inlineTexts == map[] && c.artifactRefs == Some(RefsOf(plan.items, CompletedOf(v)))
    && c.forced == v.forced && c.diagnostics == v.diagnostics
  }

  method CollectRefs(items: seq<WorkItem>, completed: set<Id>) returns (refs: map<string, Reference>)
    ensures refs == RefsOf(items, completed)
  {
    refs := map[];
    for i := 0 to |items|
      invariant refs == RefsOf(items[..i], completed)
    {
      assert items[..i + 1][..i] == items[..i];
      if items[i].id in completed {
        refs := refs[items[i].outputKey := ReferenceTo(items[i])];
      }
    }
    assert items[..|items|] == items;
  }

  method CollectRows(plan: Plan, v: StateView) returns (rows: seq<NodeResult>)
    requires WellKeyed(plan, v)
    ensures RowsAre(v, rows, v.results.Keys)
  {
    rows := [];
    var todo := v.results.Keys;
    assert RowsAre(v, rows, v.results.Keys - todo);
    while todo != {}
      invariant todo <= v.results.Keys
      invariant RowsAre(v, rows, v.results.Keys - todo)
      decreases |todo|
    {
      var id :| id in todo;
      RowAppended(plan, v, rows, todo, id);
      todo := todo - {id};
      rows := rows + [Summary(v.results[id])];
    }
    assert v.results.Keys - todo == v.results.Keys;
  }

  method AsCheckpoint(plan: Plan, v: StateView) returns (c: Checkpoint)
    requires WellKeyed(plan, v)
    ensures IsCheckpointOf(c, plan, v)
  {
    var rows := CollectRows(plan, v);
    var refs := CollectRefs(plan.items, CompletedOf(v));
    c := Checkpoint(plan.id, plan.traceId, rows, map[], Some(refs), v.forced, v.diagnostics);
  }

  // ---- Reading it back ----

  ghost predicate RowsValid(plan: Plan, rows: seq<NodeResult>) {
    && (forall i :: 0 <= i < |rows| ==>
          Find(plan.items, rows[i].itemId).Some? && Find(plan.items, rows[i].itemId).value.agentId == rows[i].agentId)
    && (forall i, j :: 0 <= i < j < |rows| ==> rows[i].itemId != rows[j].itemId)
  }

  /** Only completed results are trusted across processes. */
  ghost predicate HoldsCompleted(results: map<Id, NodeResult>, rows: seq<NodeResult>) {
    forall n :: (n in results <==> exists i :: 0 <= i < |rows| && rows[i].itemId == n && rows[i].status == Completed)
      && (n in results ==> results[n] in rows && results[n].itemId == n)
  }

  /** Each reference names an item of the plan under its output key, and its contract digest unless it has none. */
  predicate RefsKnown(plan: Plan, refs: map<string, Reference>) {
    forall k :: k in refs ==>
      var item := Find(plan.items, refs[k].item);
      item.Some? && item.value.outputKey == k
        && (refs[k].digest.Some? ==> refs[k].digest.value == item.value.contractDigest)
  }

  predicate RefsValid(plan: Plan, c: Checkpoint, completed: set<Id>) {
    c.artifactRefs.Some? ==> RefsKnown(plan, c.artifactRefs.value) && ItemsOf(c.artifactRefs.value) == completed
  }

  /** Texts of completed rows, except those whose item id is itself one of the output keys. */
  function RowTexts(plan: Plan, rows: seq<NodeResult>, keys: set<string>, base: map<string, string>)
    : map<string, string>
  {
    if rows == [] then base else
      var before, last := RowTexts(plan, rows[..|rows| - 1], keys, base), rows[|rows| - 1];
      if last.status == Completed && last.itemId !in keys && last.content.Some? && Find(plan.items, last.itemId).Some?
      then before[Find(plan.items, last.itemId).value.outputKey := last.content.value]
      else before
  }

  /** The texts of a state that was read: inline ones where there are any, else blanks, then the rows' own. */
  function TextsRead(plan: Plan, c: Checkpoint, completed: set<Id>): map<string, string> {
    var keys := OutputKeys(plan, completed);
    RowTexts(plan, c.nodeResults, keys, map k | k in keys :: if k in c.inlineTexts then c.inlineTexts[k] else "")
  }

  predicate MarksValid(plan: Plan, c: Checkpoint, completed: set<Id>) {
    && c.forced <= Ids(plan.items)
    && c.forced !! completed
    && c.diagnostics.Keys == c.forced
    && forall n :: n in c.diagnostics ==> !Blank(c.diagnostics[n]) && !Blank(n)
  }

  method ReadRows(plan: Plan, rows: seq<NodeResult>) returns (r: Option<map<Id, NodeResult>>)
    ensures r.Some? <==> RowsValid(plan, rows)
    ensures r.Some? ==> HoldsCompleted(r.value, rows)
  {
    var results: map<Id, NodeResult>, seen: set<Id> := map[], {};
    for i := 0 to |rows|
      invariant RowsValid(plan, rows[..i])
      invariant seen == set k | 0 <= k < i :: rows[k].itemId
      invariant HoldsCompleted(results, rows[..i])
    {
      var row := rows[i];
      assert rows[..i + 1] == rows[..i] + [row];
      var item := Find(plan.items, row.itemId);
      if item.None? || item.value.agentId != row.agentId || row.itemId in seen {
        return None;
      }
      seen := seen + {row.itemId};
      RowAdded(results, rows[..i], row);
      if row.status == Completed {
        results := results[row.itemId := row];
      }
    }
    assert rows[..|rows|] == rows;
    return Some(results);
  }

  lemma RowAdded(results: map<Id, NodeResult>, rows: seq<NodeResult>, row: NodeResult)
    requires HoldsCompleted(results, rows) && forall i :: 0 <= i < |rows| ==> rows[i].itemId != row.itemId
    ensures HoldsCompleted(if row.status == Completed then results[row.itemId := row] else results, rows + [row])
  {
    var results', rows' := if row.status == Completed then results[row.itemId := row] else results, rows + [row];
    assert rows'[|rows|] == row;
    forall n
      ensures n in results' <==>
        exists i :: 0 <= i < |rows'| && rows'[i].itemId == n && rows'[i].status == Completed
    {
      if n in results {
        var i :| 0 <= i < |rows| && rows[i].itemId == n && rows[i].status == Completed;
        assert rows'[i] == rows[i];
      }
    }
  }

  /** A checkpoint is readable for its plan: every check of the reader passes. */
  ghost predicate Readable(plan: Plan, c: Checkpoint) {
    && c.planId == plan.id && c.traceId == plan.traceId
    && RowsValid(plan, c.nodeResults)
    && RefsValid(plan, c, CompletedRows(c))
    && c.inlineTexts.Keys <= OutputKeys(plan, CompletedRows(c))
    && MarksValid(plan, c, CompletedRows(c))
  }

  ghost function CompletedRows(c: Checkpoint): set<Id> {
    set i | 0 <= i < |c.nodeResults| && c.nodeResults[i].status == Completed :: c.nodeResults[i].itemId
  }

  /** Reads a checkpoint that passes every check; the inline texts and references of both formats included. */
  method FromCheckpoint(plan: Plan, c: Checkpoint) returns (r: Option<StateView>)
    ensures r.Some? <==> Readable(plan, c)
    ensures r.Some? ==>
      && HoldsCompleted(r.value.results, c.nodeResults)
      && r.value.forced == c.forced && r.value.diagnostics == c.diagnostics && r.value.contexts == map[]
      && r.value.artifacts == TextsRead(plan, c, r.value.results.Keys)
  {
    if c.planId != plan.id || c.traceId != plan.traceId {
      return None;
    }
    var rows := ReadRows(plan, c.nodeResults);
    if rows.None? {
      return None;
    }
    var results := rows.value;
    assert results.Keys == CompletedRows(c);
    if !RefsValid(plan, c, results.Keys) || !(c.inlineTexts.Keys <= OutputKeys(plan, results.Keys))
      || !MarksValid(plan, c, results.Keys) {
      return None;
    }
    var texts := ReadTexts(plan, c, results.Keys);
    return Some(StateView(results, texts, c.forced, c.diagnostics, map[]));
  }

  method ReadTexts(plan: Plan, c: Checkpoint, completed: set<Id>) returns (texts: map<string, string>)
    ensures texts == TextsRead(plan, c, completed)
  {
    var keys := OutputKeys(plan, completed);
    var base := map k | k in keys :: if k in c.inlineTexts then c.inlineTexts[k] else "";
    texts := base;
    for i := 0 to |c.nodeResults|
      invariant texts == RowTexts(plan, c.nodeResults[..i], keys, base)
    {
      assert c.nodeResults[..i + 1][..i] == c.nodeResults[..i];
      var row := c.nodeResults[i];
      var item := Find(plan.items, row.itemId);
      if row.status == Completed && row.itemId !in keys && row.content.Some? && item.Some? {
        texts := texts[item.value.outputKey := row.content.value];
      }
    }
    assert c.nodeResults[..|c.nodeResults|] == c.nodeResults;
  }

  lemma ReadRowIsOfItem(plan: Plan, c: Checkpoint, results: map<Id, NodeResult>, n: Id)
    requires RowsValid(plan, c.nodeResults) && HoldsCompleted(results, c.nodeResults) && n in results
    ensures Find(plan.items, n).Some? && results[n].itemId == n && results[n].status == Completed
    ensures results[n].agentId == Find(plan.items, n).value.agentId && n in CompletedRows(c)
  {
    var i :| 0 <= i < |c.nodeResults| && c.nodeResults[i].itemId == n && c.nodeResults[i].status == Completed;
    var j :| 0 <= j < |c.nodeResults| && c.nodeResults[j] == results[n];
  }

  /** What is read back always satisfies what the resume pipeline expects of a checkpoint. */
  lemma ReadStatesAreWellFormed(plan: Plan, c: Checkpoint, v: StateView)
    requires Readable(plan, c) && HoldsCompleted(v.results, c.nodeResults)
    requires v.forced == c.forced && v.diagnostics == c.diagnostics
    ensures WellFormed(plan, v)
  {
    forall n | n in v.results
      ensures Find(plan.items, n).Some? && v.results[n].itemId == n && v.results[n].status == Completed
      ensures v.results[n].agentId == Find(plan.items, n).value.agentId && n !in v.forced
    {
      ReadRowIsOfItem(plan, c, v.results, n);
    }
  }

  // ---- Which states survive the round trip ----

  /** No two completed items share an output key. */
  ghost predicate DistinctOutputs(plan: Plan, completed: set<Id>) {
    forall i, j :: 0 <= i < j < |plan.items| && plan.items[i].id in completed && plan.items[j].id in completed
      ==> plan.items[i].outputKey != plan.items[j].outputKey
  }

  lemma {:induction false} RefsOfEntries(items: seq<WorkItem>, completed: set<Id>, k: string)
    ensures k in RefsOf(items, completed) ==>
      exists i :: 0 <= i < |items| && items[i].id in completed && items[i].outputKey == k
        && RefsOf(items, completed)[k] == ReferenceTo(items[i])
  {
    if items != [] {
      var init := items[..|items| - 1];
      RefsOfEntries(init, completed, k);
      if k in RefsOf(init, completed) {
        var i :| 0 <= i < |init| && init[i].id in completed && init[i].outputKey == k
            && RefsOf(init, completed)[k] == ReferenceTo(init[i]);
        assert items[i] == init[i];
      }
      assert items[|items| - 1].outputKey == k || k !in RefsOf(items, completed) || k in RefsOf(init, completed);
    }
  }

  /** The entry of an item survives exactly as long as no later completed item has its key. */
  lemma {:induction false} RefsOfAt(items: seq<WorkItem>, completed: set<Id>, i: nat)
    requires UniqueIds(items) && i < |items| && items[i].id in completed
    ensures items[i].outputKey in RefsOf(items, completed)
    ensures RefsOf(items, completed)[items[i].outputKey] == ReferenceTo(items[i])
      <==> forall j :: i < j < |items| && items[j].id in completed ==> items[j].outputKey != items[i].outputKey
  {
    var n := |items| - 1;
    if i < n {
      RefsOfAt(items[..n], completed, i);
      if items[n].id in completed && items[n].outputKey == items[i].outputKey {
        assert RefsOf(items, completed)[items[i].outputKey] == ReferenceTo(items[n]);
      } else {
        assert RefsOf(items, completed)[items[i].outputKey] == RefsOf(items[..n], completed)[items[i].outputKey];
        assert forall j :: i < j < n ==> items[j] == items[..n][j];
      }
    }
  }

  /** The references name all completed items if and only if no two of them share an output key. */
  lemma RefsCoverCompleted(plan: Plan, completed: set<Id>)
    requires UniqueIds(plan.items) && completed <= Ids(plan.items)
    ensures RefsKnown(plan, RefsOf(plan.items, completed))
    ensures ItemsOf(RefsOf(plan.items, completed)) == completed <==> DistinctOutputs(plan, completed)
  {
    var items, refs := plan.items, RefsOf(plan.items, completed);
    forall k | k in refs
      ensures refs[k].item in completed && Find(items, refs[k].item).Some?
        && Find(items, refs[k].item).value.outputKey == k
      ensures refs[k].digest == Some(Find(items, refs[k].item).value.contractDigest)
    {
      RefsOfEntries(items, completed, k);
      var i :| 0 <= i < |items| && items[i].id in completed && items[i].outputKey == k
          && refs[k] == ReferenceTo(items[i]);
      FindAt(items, i);
    }
    if DistinctOutputs(plan, completed) {
      forall n | n in completed ensures n in ItemsOf(refs) {
        var i :| 0 <= i < |items| && items[i].id == n;
        RefsOfAt(items, completed, i);
        assert refs[items[i].outputKey].item == n;
      }
    } else {
      var i, j :| 0 <= i < j < |items| && items[i].id in completed && items[j].id in completed
          && items[i].outputKey == items[j].outputKey;
      RefsOfAt(items, completed, i);
      if items[i].id in ItemsOf(refs) {
        var k :| k in refs && refs[k].item == items[i].id;
        FindAt(items, i);
        RefsOfEntries(items, completed, k);
      }
    }
  }

  lemma RowsOfState(c: Checkpoint, plan: Plan, v: StateView)
    requires WellKeyed(plan, v) && IsCheckpointOf(c, plan, v)
    ensures RowsValid(plan, c.nodeResults) && CompletedRows(c) == CompletedOf(v)
  {
    var rows := c.nodeResults;
    forall i | 0 <= i < |rows| ensures rows[i].itemId in v.results && rows[i] == Summary(v.results[rows[i].itemId]) {
      assert rows[i] in rows;
      var n :| n in v.results && rows[i] == Summary(v.results[n]);
    }
    forall n | n in CompletedOf(v) ensures n in CompletedRows(c) {
      assert Summary(v.results[n]) in rows;
      var i :| 0 <= i < |rows| && rows[i] == Summary(v.results[n]);
    }
  }

  /**
   Exactly which states can be read back from the checkpoint written for them: those without
   two completed items on one output key, whose marks are items without a completed result, and
   whose diagnostics are the non-blank ones of just the marked items.
   */
  lemma CheckpointReadableIff(c: Checkpoint, plan: Plan, v: StateView)
    requires UniqueIds(plan.items) && WellKeyed(plan, v) && IsCheckpointOf(c, plan, v)
    ensures Readable(plan, c) <==>
      && DistinctOutputs(plan, CompletedOf(v))
      && MarksValid(plan, c, CompletedOf(v))
  {
    RowsOfState(c, plan, v);
    RefsCoverCompleted(plan, CompletedOf(v));
  }

  lemma {:induction false} NoRowTexts(plan: Plan, rows: seq<NodeResult>, keys: set<string>, base: map<string, string>)
    requires forall r :: r in rows ==> r.content.None?
    ensures RowTexts(plan, rows, keys, base) == base
  {
    if rows != [] {
      NoRowTexts(plan, rows[..|rows| - 1], keys, base);
    }
  }

  /** What is read back is the completed part of the state, with its marks and without the texts. */
  lemma RoundTrip(c: Checkpoint, plan: Plan, v: StateView, w: StateView)
    requires WellKeyed(plan, v) && IsCheckpointOf(c, plan, v) && HoldsCompleted(w.results, c.nodeResults)
    requires w.artifacts == TextsRead(plan, c, w.results.Keys) && w.forced == c.forced && w.diagnostics == c.diagnostics
    ensures w.results == map n | n in CompletedOf(v) :: Summary(v.results[n])
    ensures w.artifacts == map k | k in OutputKeys(plan, CompletedOf(v)) :: ""
    ensures w.forced == v.forced && w.diagnostics == v.diagnostics
  {
    ReadResults(c, plan, v, w.results);
    assert w.results.Keys == CompletedOf(v);
    ReadTextsAreBlank(c, plan, v);
  }

  lemma ReadResults(c: Checkpoint, plan: Plan, v: StateView, results: map<Id, NodeResult>)
    requires WellKeyed(plan, v) && IsCheckpointOf(c, plan, v) && HoldsCompleted(results, c.nodeResults)
    ensures results == map n | n in CompletedOf(v) :: Summary(v.results[n])
  {
    RowsOfState(c, plan, v);
    ReadKeys(c, v, results);
    ReadValues(c, plan, v, results);
  }

  lemma ReadTextsAreBlank(c: Checkpoint, plan: Plan, v: StateView)
    requires IsCheckpointOf(c, plan, v)
    ensures TextsRead(plan, c, CompletedOf(v)) == map k | k in OutputKeys(plan, CompletedOf(v)) :: ""
  {
    forall r | r in c.nodeResults ensures r.content.None? {
      var n :| n in v.results && r == Summary(v.results[n]);
    }
    var keys := OutputKeys(plan, CompletedOf(v));
    NoRowTexts(plan, c.nodeResults, keys, map k | k in keys :: "");
    assert (map k | k in keys :: if k in c.inlineTexts then c.inlineTexts[k] else "") == map k | k in keys :: "";
  }

  lemma ReadKeys(c: Checkpoint, v: StateView, results: map<Id, NodeResult>)
    requires HoldsCompleted(results, c.nodeResults) && CompletedRows(c) == CompletedOf(v)
    ensures results.Keys == CompletedOf(v)
  {
    var rows := c.nodeResults;
    forall n ensures n in results <==> n in CompletedRows(c) {
      assert n in CompletedRows(c) <==>
          exists i :: 0 <= i < |rows| && rows[i].itemId == n && rows[i].status == Completed;
    }
  }

  lemma ReadsCompletedResults(c: Checkpoint, plan: Plan, w: StateView, v: StateView)
    requires WellKeyed(plan, w) && AllCompleted(w) && IsCheckpointOf(c, plan, w)
      && HoldsCompleted(v.results, c.nodeResults)
    ensures v.results.Keys == w.results.Keys
  {
    RowsOfState(c, plan, w);
    ReadKeys(c, w, v.results);
    assert CompletedOf(w) == w.results.Keys;
  }

  lemma ReadValues(c: Checkpoint, plan: Plan, v: StateView, results: map<Id, NodeResult>)
    requires WellKeyed(plan, v) && IsCheckpointOf(c, plan, v) && HoldsCompleted(results, c.nodeResults)
    ensures forall n :: n in results ==> n in v.results && results[n] == Summary(v.results[n])
  {
    forall n | n in results ensures n in v.results && results[n] == Summary(v.results[n]) {
      var m :| m in v.results && results[n] == Summary(v.results[m]);
    }
  }

  /** Two items whose results survive the resume share an output key. */
  ghost predicate SurvivorsShareOutput(input: ResumeInput, events: seq<Event>) {
    var items := ResumePlan(input).items;
    exists i, j :: 0 <= i < j < |items| && items[i].outputKey == items[j].outputKey
      && Survives(input, events, items[i].id) && Survives(input, events, items[j].id)
  }

  /**
   The checkpoint of a resumed state can be read back if and only if no code gate fails for a
   loaded result that the records leave alone, and no two results that survive share an output key.
   */
  lemma ResumedCheckpointReadableIff(input: ResumeInput, events: seq<Event>, c: Checkpoint, w: StateView)
    requires UniqueIds(ResumePlan(input).items) && WellFormedInput(input) && w == Resumed(input, events)
    requires IsCheckpointOf(c, ResumePlan(input), w)
    requires input.diagnosis.Diagnosis? ==> !Blank(input.diagnosis.text)
    requires forall item :: item in ResumePlan(input).items ==> !Blank(item.id)
    ensures Readable(ResumePlan(input), c)
      <==> (forall n :: !GateHits(input, events, n)) && !SurvivorsShareOutput(input, events)
  {
    var inStep := FailedGateItems(input, events) == {};
    MarksAfterResume(input, events, w);
    ResumedIsWellKeyed(input, events);
    if inStep {
      MarksStayPresentable(input, events);
    }
    MarksDecideReadability(c, ResumePlan(input), w, inStep);
    forall n ensures n in FailedGateItems(input, events) <==> GateHits(input, events, n) {
      FailedGateIff(input, events, n);
    }
    SurvivorsDecideOutputs(input, events, w);
  }

  lemma SurvivorsDecideOutputs(input: ResumeInput, events: seq<Event>, w: StateView)
    requires UniqueIds(ResumePlan(input).items) && WellFormedInput(input) && w == Resumed(input, events)
    ensures DistinctOutputs(ResumePlan(input), w.results.Keys) <==> !SurvivorsShareOutput(input, events)
  {
    forall n ensures n in w.results <==> Survives(input, events, n) {
      ResumedIffSurvives(input, events, n);
    }
  }

  lemma MarksDecideReadability(c: Checkpoint, plan: Plan, w: StateView, inStep: bool)
    requires UniqueIds(plan.items) && WellKeyed(plan, w) && IsCheckpointOf(c, plan, w)
    requires w.forced !! w.results.Keys && AllCompleted(w)
    requires (w.diagnostics.Keys == w.forced <==> inStep) && (inStep ==> MarksPresentable(plan, w))
    ensures Readable(plan, c) <==> inStep && DistinctOutputs(plan, w.results.Keys)
  {
    CheckpointReadableIff(c, plan, w);
    assert CompletedOf(w) == w.results.Keys;
  }

  // ---- What the reader accepts, said of the plan's items ----

  predicate IsItem(plan: Plan, id: Id) {
    exists i :: 0 <= i < |plan.items| && plan.items[i].id == id
  }

  /** Row `i` is of an item and its agent. */
  ghost predicate RowIsOfItem(plan: Plan, row: NodeResult) {
    exists item :: item in plan.items && item.id == row.itemId && item.agentId == row.agentId
  }

  predicate RowCompleted(c: Checkpoint, n: Id) {
    exists i :: 0 <= i < |c.nodeResults| && c.nodeResults[i].itemId == n && c.nodeResults[i].status == Completed
  }

  /** The reference is to an item with this output key, and under its present contract unless it states none. */
  ghost predicate ReferenceHolds(plan: Plan, k: string, ref: Reference) {
    exists item :: item in plan.items && item.id == ref.item && item.outputKey == k
      && (ref.digest == None || ref.digest == Some(item.contractDigest))
  }

  /** The rows are of different items, and of their agents. */
  ghost predicate RowsHold(plan: Plan, c: Checkpoint) {
    && (forall row :: row in c.nodeResults ==> RowIsOfItem(plan, row))
    && (forall i, j :: 0 <= i < j < |c.nodeResults| ==> c.nodeResults[i].itemId != c.nodeResults[j].itemId)
  }

  predicate Refers(refs: map<string, Reference>, n: Id) {
    exists k :: k in refs && refs[k].item == n
  }

  /** The references, if there are any, hold and are to just the completed items. */
  ghost predicate RefsHold(plan: Plan, c: Checkpoint) {
    c.artifactRefs.Some? ==>
      && (forall k :: k in c.artifactRefs.value ==> ReferenceHolds(plan, k, c.artifactRefs.value[k]))
      && (forall n :: RowCompleted(c, n) <==> Refers(c.artifactRefs.value, n))
  }

  /** Inline texts stand under output keys of completed items. */
  ghost predicate TextsHold(plan: Plan, c: Checkpoint) {
    forall k :: k in c.inlineTexts ==>
      exists item :: item in plan.items && item.outputKey == k && RowCompleted(c, item.id)
  }

  /** Marks are of items that have not completed; those, and no others, have a diagnostic, and none is blank. */
  ghost predicate MarksHold(plan: Plan, c: Checkpoint) {
    && (forall n :: n in c.forced ==> IsItem(plan, n) && !RowCompleted(c, n) && n in c.diagnostics)
    && (forall n :: n in c.diagnostics ==> n in c.forced && !Blank(n) && !Blank(c.diagnostics[n]))
  }

  /** Exactly which checkpoints can be read, said of the plan's items. */
  lemma ReadableIff(plan: Plan, c: Checkpoint)
    requires UniqueIds(plan.items)
    ensures Readable(plan, c) <==>
      && c.planId == plan.id && c.traceId == plan.traceId
      && RowsHold(plan, c) && RefsHold(plan, c) && TextsHold(plan, c) && MarksHold(plan, c)
  {
    RowsHoldIff(plan, c);
    RefsHoldIff(plan, c);
    TextsHoldIff(plan, c);
    MarksHoldIff(plan, c);
  }

  lemma CompletedRowsIff(c: Checkpoint)
    ensures forall n :: n in CompletedRows(c) <==> RowCompleted(c, n)
  {
  }

  lemma RowsHoldIff(plan: Plan, c: Checkpoint)
    requires UniqueIds(plan.items)
    ensures RowsHold(plan, c) <==> RowsValid(plan, c.nodeResults)
  {
    forall row ensures RowIsOfItem(plan, row) <==> FoundWithAgent(plan, row) {
      RowIsOfItemIff(plan, row);
    }
    if RowsHold(plan, c) {
      forall i | 0 <= i < |c.nodeResults| ensures FoundWithAgent(plan, c.nodeResults[i]) {
        assert c.nodeResults[i] in c.nodeResults;
      }
    }
  }

  lemma RefsHoldIff(plan: Plan, c: Checkpoint)
    requires UniqueIds(plan.items)
    ensures RefsHold(plan, c) <==> RefsValid(plan, c, CompletedRows(c))
  {
    CompletedRowsIff(c);
    if c.artifactRefs.Some? {
      var refs := c.artifactRefs.value;
      RefsValidIff(plan, refs);
      forall n ensures n in ItemsOf(refs) <==> Refers(refs, n) {
      }
      assert ItemsOf(refs) == CompletedRows(c) <==> forall n :: n in ItemsOf(refs) <==> n in CompletedRows(c);
    }
  }

  lemma TextsHoldIff(plan: Plan, c: Checkpoint)
    requires UniqueIds(plan.items)
    ensures TextsHold(plan, c) <==> c.inlineTexts.Keys <= OutputKeys(plan, CompletedRows(c))
  {
    CompletedRowsIff(c);
    forall k
      ensures k in OutputKeys(plan, CompletedRows(c))
        <==> exists item :: item in plan.items && item.outputKey == k && RowCompleted(c, item.id)
    {
      KeysOfItemsIff(plan, CompletedRows(c), k);
    }
  }

  lemma MarksHoldIff(plan: Plan, c: Checkpoint)
    ensures MarksHold(plan, c) <==> MarksValid(plan, c, CompletedRows(c))
  {
    CompletedRowsIff(c);
    assert forall n :: n in Ids(plan.items) <==> IsItem(plan, n);
    if MarksHold(plan, c) {
      assert c.diagnostics.Keys == c.forced;
    }
  }

  predicate FoundWithAgent(plan: Plan, row: NodeResult) {
    Find(plan.items, row.itemId).Some? && Find(plan.items, row.itemId).value.agentId == row.agentId
  }

  lemma RowIsOfItemIff(plan: Plan, row: NodeResult)
    requires UniqueIds(plan.items)
    ensures RowIsOfItem(plan, row) <==> FoundWithAgent(plan, row)
  {
    if item :| item in plan.items && item.id == row.itemId && item.agentId == row.agentId {
      var i :| 0 <= i < |plan.items| && plan.items[i] == item;
      FindAt(plan.items, i);
    }
  }

  lemma RefsValidIff(plan: Plan, refs: map<string, Reference>)
    requires UniqueIds(plan.items)
    ensures RefsKnown(plan, refs) <==> forall k :: k in refs ==> ReferenceHolds(plan, k, refs[k])
  {
    forall k | k in refs && ReferenceHolds(plan, k, refs[k])
      ensures Find(plan.items, refs[k].item).Some? && Find(plan.items, refs[k].item).value.outputKey == k
      ensures refs[k].digest.Some? ==> refs[k].digest.value == Find(plan.items, refs[k].item).value.contractDigest
    {
      var item :| item in plan.items && item.id == refs[k].item && item.outputKey == k
          && (refs[k].digest == None || refs[k].digest == Some(item.contractDigest));
      var i :| 0 <= i < |plan.items| && plan.items[i] == item;
      FindAt(plan.items, i);
    }
  }

  lemma KeysOfItemsIff(plan: Plan, ids: set<Id>, k: string)
    requires UniqueIds(plan.items)
    ensures k in OutputKeys(plan, ids) <==> exists item :: item in plan.items && item.outputKey == k && item.id in ids
  {
    if item :| item in plan.items && item.outputKey == k && item.id in ids {
      var i :| 0 <= i < |plan.items| && plan.items[i] == item;
      FindAt(plan.items, i);
    }
  }

  /** Each item that runs again has its own text as its diagnostic; the other diagnostics stay. */
  lemma RepairedDiagnosticText(plan: Plan, v: StateView, rerun: seq<Id>, texts: Id -> string, n: Id)
    ensures var w := CodeWaveRepaired(plan, v, rerun, texts);
      if n in rerun then n in w.diagnostics && w.diagnostics[n] == texts(n)
      else (n in w.diagnostics <==> n in v.diagnostics) && (n in w.diagnostics ==> w.diagnostics[n] == v.diagnostics[n])
  {
  }

  /** What a repair runs again: the code items of this plan among the related ones. */
  lemma {:induction false} RerunIdsIff(plan: Plan, related: seq<Id>, r: Id)
    requires UniqueIds(plan.items)
    ensures r in RerunIds(plan, related) <==>
      r in related && exists item :: item in plan.items && item.id == r && item.agentId == "code_agent"
  {
    if related != [] {
      RerunIdsIff(plan, related[1..], r);
      assert related == [related[0]] + related[1..];
      if item :| item in plan.items && item.id == related[0] && item.agentId == "code_agent" {
        var i :| 0 <= i < |plan.items| && plan.items[i] == item;
        FindAt(plan.items, i);
      }
    }
  }

  /** A text in the old format's row stands under its item's output key, unless a later row replaces it. */
  lemma {:induction false} RowTextIsRead(plan: Plan, rows: seq<NodeResult>, keys: set<string>,
                                         base: map<string, string>, i: nat)
    requires i < |rows| && Find(plan.items, rows[i].itemId).Some?
    requires rows[i].status == Completed && rows[i].content.Some? && rows[i].itemId !in keys
    requires forall j :: i < j < |rows| && Find(plan.items, rows[j].itemId).Some? ==>
               Find(plan.items, rows[j].itemId).value.outputKey != Find(plan.items, rows[i].itemId).value.outputKey
    ensures var key := Find(plan.items, rows[i].itemId).value.outputKey;
      key in RowTexts(plan, rows, keys, base) && RowTexts(plan, rows, keys, base)[key] == rows[i].content.value
  {
    if i < |rows| - 1 {
      RowTextIsRead(plan, rows[..|rows| - 1], keys, base, i);
    }
  }

  // ---- A failed gate, concretely ----

  const INTEGRATE :=
    WorkItem("integrate", "code_integration_agent", "implementation", "implementation", [], Integration, [],
                              None, None, None, None, [], [], "contract")

  const GATED_PLAN := Plan("plan", "goal", [INTEGRATE], None, "process", "trace", "run")

  /** One integration that completed, according to the log, and whose code gate now fails. */
  const GATED_INPUT :=
    ResumeInput(GATED_PLAN, false, GATED_PLAN, None, None, None, Evidence({}, {}, Some("import broken")), NoDiagnosis,
                map[])

  const GATED_LOG := [Event(ItemCompleted, "integrate", "")]

  /** What is written for it: no result, no mark, and a diagnostic that the reader does not expect. */
  const GATED_CHECKPOINT := Checkpoint("plan", "trace", [], map[], Some(map[]), {}, map["integrate" := "import broken"])

  lemma IntegrateWasCompleted()
    ensures Loaded(GATED_INPUT, GATED_LOG) == Rebuilt(GATED_PLAN, GATED_LOG, map[])
    ensures Rebuilt(GATED_PLAN, GATED_LOG, map[]).results.Keys == {"integrate"}
  {
    var g := DependencyGraph(GATED_PLAN.items);
    assert GATED_PLAN.items[0] == INTEGRATE;
    assert CompletedByLog(GATED_PLAN, GATED_LOG) == {"integrate"};
    assert GATED_PLAN.items[..0] == [] && g["integrate"] == {};
    assert Closed(g, {"integrate"});
    KeptIsGreatestClosed(g, {"integrate"}, {"integrate"});
    FindAt(GATED_PLAN.items, 0);
  }

  lemma IntegrateIsDropped()
    ensures Resumed(GATED_INPUT, GATED_LOG).results == map[]
    ensures GateHits(GATED_INPUT, GATED_LOG, "integrate")
  {
    IntegrateWasCompleted();
    FindAt(GATED_PLAN.items, 0);
    ResumedFromChecked(GATED_INPUT, GATED_LOG);
    CheckedKeepsTrusted(GATED_INPUT, GATED_LOG, "integrate");
    CheckedIsClosed(GATED_INPUT, GATED_LOG);
  }

  lemma IntegrateIsDiagnosed(loaded: StateView, e: Evidence)
    requires "integrate" in loaded.results && loaded.diagnostics == map[] && e.codeGateError == Some("import broken")
    ensures GateDiagnostics(GATED_PLAN.items, loaded, e) == map["integrate" := "import broken"]
  {
    assert GateDiagnostics([], loaded, e) == map[];
    assert GATED_PLAN.items[..0] == [];
  }

  /** The resume of this trace writes a checkpoint that no later resume can read. */
  lemma FailedGateMakesUnreadable()
    ensures WellFormedInput(GATED_INPUT) && GateHits(GATED_INPUT, GATED_LOG, "integrate")
    ensures IsCheckpointOf(GATED_CHECKPOINT, ResumePlan(GATED_INPUT), Resumed(GATED_INPUT, GATED_LOG))
    ensures !Readable(ResumePlan(GATED_INPUT), GATED_CHECKPOINT)
  {
    var w, loaded := Resumed(GATED_INPUT, GATED_LOG), Loaded(GATED_INPUT, GATED_LOG);
    IntegrateIsDropped();
    IntegrateWasCompleted();
    ResumedFromChecked(GATED_INPUT, GATED_LOG);
    assert Due(GATED_INPUT, GATED_LOG) == [];
    assert w == Sanitized(GATED_PLAN, loaded, GATED_INPUT.evidence);
    IntegrateIsDiagnosed(loaded, GATED_INPUT.evidence);
    assert "integrate" in GATED_CHECKPOINT.diagnostics;
  }
}
