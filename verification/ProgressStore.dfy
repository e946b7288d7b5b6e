/**
 The worker's monitoring snapshot and the operations that update it in place, reduced to the
 clocks the watchdog reads. Times are integers on one clock.
 */
module ProgressStore {
  import opened Graphs
  import opened WorkItems

  datatype Lifecycle = Pending | Running | Waiting | Retrying | Terminal

  datatype Signal = Transport | Semantic | Control | Heartbeat

  datatype ItemView = ItemView(
    lifecycle: Lifecycle,
    activity: string,
    event: string,
    lastEventAt: Option<int>,
    llmState: Option<string>,
    lastMeaningfulAt: Option<int>,
    transportAt: Option<int>)

  const NEW_ITEM := ItemView(Pending, "worker", "", None, None, None, None)

  /** `meaningful` is the run's `last_meaningful_at`, if it can be read as a time. */
  datatype Snapshot = Snapshot(
    lifecycle: Lifecycle,
    meaningful: Option<int>,
    heartbeat: Option<int>,
    items: map<Id, ItemView>,
    batches: set<string>)

  /** What `_current` works on: a missing or unreadable snapshot is replaced by a new one, stamped now. */
  function Current(s: Option<Snapshot>, now: int): Snapshot {
    match s
    case Some(snapshot) => snapshot
    case None => Snapshot(Pending, Some(now), None, map[], {})
  }

  predicate IsMeaningful(signal: Signal) {
    signal == Semantic || signal == Control
  }

  datatype Activity = Activity(item: Id, lifecycle: Lifecycle, activity: string, event: string, signal: Signal,
                               llm: Option<string>)

  function UpdatedItem(previous: ItemView, a: Activity, now: int): ItemView {
    ItemView(a.lifecycle, a.activity, a.event, Some(now),
             if a.llm.Some? then a.llm else previous.llmState,
             if IsMeaningful(a.signal) then Some(now) else previous.lastMeaningfulAt,
             if a.signal == Transport then Some(now) else previous.transportAt)
  }

  function Finalized(item: ItemView, now: int, cancelled: bool): ItemView {
    if item.lifecycle !in {Running, Retrying, Waiting} then item
    else item.(lifecycle := Terminal, activity := "worker", event := "work_item_closed", lastEventAt := Some(now),
               llmState := if item.llmState.Some? && item.llmState.value !in {"completed", "failed", "cancelled"}
                           then Some(if cancelled then "cancelled" else "failed") else item.llmState)
  }

  /** The operations a Worker and its control plane perform on the store. */
  datatype Operation =
    | StartRun
    | EnsureRun
    | SetRunState(lifecycle: Lifecycle)
    | RecordActivity(a: Activity)
    | RecordPlanning(lifecycle: Lifecycle, signal: Signal)
    | StartBatch(batch: string)
    | FinishBatch(batch: string)
    | FinalizeRun(cancelled: bool)
    | Beat

  function After(s: Option<Snapshot>, op: Operation, now: int): Option<Snapshot> {
    var current := Current(s, now);
    match op
    case StartRun => Some(Snapshot(Running, Some(now), Some(now), map[], {}))
    case EnsureRun =>
      if s.None? then Some(Snapshot(Running, Some(now), Some(now), map[], {}))
      else if current.lifecycle == Pending then Some(current.(lifecycle := Running, meaningful := Some(now)))
      else s
    case SetRunState(lifecycle) =>
      Some(current.(lifecycle := lifecycle,
                    meaningful := if lifecycle != Terminal then Some(now) else current.meaningful))
    case RecordActivity(a) =>
      var previous := if a.item in current.items then current.items[a.item] else NEW_ITEM;
      Some(current.(items := current.items[a.item := UpdatedItem(previous, a, now)],
                    meaningful := if IsMeaningful(a.signal) then Some(now) else current.meaningful))
    case RecordPlanning(lifecycle, signal) =>
      Some(current.(lifecycle := lifecycle,
                    meaningful := if IsMeaningful(signal) then Some(now) else current.meaningful))
    case StartBatch(batch) => Some(current.(batches := current.batches + {batch}))
    case FinishBatch(batch) => if batch in current.batches then Some(current) else s
    case FinalizeRun(cancelled) =>
      Some(current.(lifecycle := Terminal,
                    items := map n | n in current.items :: Finalized(current.items[n], now, cancelled)))
    case Beat => if s.Some? then Some(s.value.(heartbeat := Some(now))) else None
  }

  /** The store, whose methods read the snapshot, update fields of it, and write it back. */
  class WorkerProgressStore {
    var snapshot: Option<Snapshot>

    constructor (snapshot: Option<Snapshot>)
      ensures this.snapshot == snapshot
    {
      this.snapshot := snapshot;
    }

    method StartNewRun(now: int)
      modifies this
      ensures snapshot == After(old(snapshot), StartRun, now)
    {
      var payload := Snapshot(Pending, Some(now), None, map[], {});
      payload := payload.(lifecycle := Running);
      payload := payload.(meaningful := Some(now));
      payload := payload.(heartbeat := Some(now));
      snapshot := Some(payload);
    }

    method EnsureRunStarted(now: int)
      modifies this
      ensures snapshot == After(old(snapshot), EnsureRun, now)
    {
      if snapshot.None? {
        StartNewRun(now);
        return;
      }
      var payload := snapshot.value;
      if payload.lifecycle == Pending {
        payload := payload.(lifecycle := Running, meaningful := Some(now));
        snapshot := Some(payload);
      }
    }

    method SetState(lifecycle: Lifecycle, now: int)
      modifies this
      ensures snapshot == After(old(snapshot), SetRunState(lifecycle), now)
    {
      var payload := Current(snapshot, now);
      payload := payload.(lifecycle := lifecycle);
      if lifecycle != Terminal {
        payload := payload.(meaningful := Some(now));
      }
      snapshot := Some(payload);
    }

    method RecordWorkItemActivity(a: Activity, now: int)
      modifies this
      ensures snapshot == After(old(snapshot), RecordActivity(a), now)
    {
      var payload := Current(snapshot, now);
      var previous := if a.item in payload.items then payload.items[a.item] else NEW_ITEM;
      var item := previous.(lifecycle := a.lifecycle, activity := a.activity, event := a.event,
                            lastEventAt := Some(now));
      if a.signal == Transport {
        item := item.(transportAt := Some(now));
      }
      if IsMeaningful(a.signal) {
        item := item.(lastMeaningfulAt := Some(now));
      }
      if a.llm.Some? {
        item := item.(llmState := a.llm);
      }
      payload := payload.(items := payload.items[a.item := item]);
      if IsMeaningful(a.signal) {
        payload := payload.(meaningful := Some(now));
      }
      snapshot := Some(payload);
    }

    method RecordPlanningState(lifecycle: Lifecycle, signal: Signal, now: int)
      modifies this
      ensures snapshot == After(old(snapshot), RecordPlanning(lifecycle, signal), now)
    {
      var payload := Current(snapshot, now);
      payload := payload.(lifecycle := lifecycle);
      if IsMeaningful(signal) {
        payload := payload.(meaningful := Some(now));
      }
      snapshot := Some(payload);
    }

    method StartNewBatch(batch: string, now: int)
      modifies this
      ensures snapshot == After(old(snapshot), StartBatch(batch), now)
    {
      var payload := Current(snapshot, now);
      snapshot := Some(payload.(batches := payload.batches + {batch}));
    }

    method FinishOpenBatch(batch: string, now: int)
      modifies this
      ensures snapshot == After(old(snapshot), FinishBatch(batch), now)
    {
      var payload := Current(snapshot, now);
      if batch !in payload.batches {
        return;
      }
      snapshot := Some(payload);
    }

    /** The heartbeat thread's write: it skips a missing snapshot and touches nothing else. */
    method Heartbeat(now: int)
      modifies this
      ensures snapshot == After(old(snapshot), Beat, now)
    {
      if snapshot.None? {
        return;
      }
      snapshot := Some(snapshot.value.(heartbeat := Some(now)));
    }

    method Finalize(cancelled: bool, now: int)
      modifies this
      ensures snapshot == After(old(snapshot), FinalizeRun(cancelled), now)
    {
      var payload := Current(snapshot, now);
      var items := payload.items;
      var todo := items.Keys;
      while todo != {}
        invariant todo <= payload.items.Keys && items.Keys == payload.items.Keys
        invariant forall n :: n in items
                    ==> items[n] == if n in todo then payload.items[n] else Finalized(payload.items[n], now, cancelled)
        decreases |todo|
      {
        var id :| id in todo;
        todo := todo - {id};
        items := items[id := Finalized(items[id], now, cancelled)];
      }
      assert items == map n | n in payload.items :: Finalized(payload.items[n], now, cancelled);
      snapshot := Some(payload.(lifecycle := Terminal, items := items));
    }
  }

  // ---- What renews the run's clock ----

  /** The operation stamps the run's clock with the present time. */
  predicate Renews(s: Option<Snapshot>, op: Operation) {
    match op
    case StartRun => true
    case EnsureRun => s.None? || s.value.lifecycle == Pending
    case SetRunState(lifecycle) => lifecycle != Terminal || s.None?
    case RecordActivity(a) => IsMeaningful(a.signal) || s.None?
    case RecordPlanning(_, signal) => IsMeaningful(signal) || s.None?
    case StartBatch(_) => s.None?
    case FinishBatch(_) => false
    case FinalizeRun(_) => s.None?
    case Beat => false
  }

  function Clock(s: Option<Snapshot>): Option<int> {
    if s.Some? then s.value.meaningful else None
  }

  /** An operation either stamps the clock with the present or leaves it alone, and never removes a snapshot. */
  lemma ClockMovesOnlyOnRenewal(s: Option<Snapshot>, op: Operation, now: int)
    ensures Clock(After(s, op, now)) == if Renews(s, op) then Some(now) else Clock(s)
    ensures s.Some? ==> After(s, op, now).Some?
  {
  }

  /**
   Heartbeats never renew the clock. A signal that only proves transport renews it if and only
   if there is no readable snapshot, because the replacement is stamped with the present.
   */
  lemma TransportRenewsOnlyWithoutSnapshot(s: Option<Snapshot>, a: Activity, lifecycle: Lifecycle, now: int)
    requires a.signal == Transport
    requires Clock(s) != Some(now)
    ensures Clock(After(s, Beat, now)) == Clock(s)
    ensures Clock(After(s, RecordActivity(a), now)) != Clock(s) <==> s.None?
    ensures Clock(After(s, RecordPlanning(lifecycle, Transport), now)) != Clock(s) <==> s.None?
  {
  }

  // ---- What moves the clocks of one WorkItem ----

  function ViewOf(s: Option<Snapshot>, n: Id): Option<ItemView> {
    if s.Some? && n in s.value.items then Some(s.value.items[n]) else None
  }

  /** Semantic and control signals always renew the run's clock, whether of an item or of the planning. */
  lemma MeaningfulSignalsRenew(s: Option<Snapshot>, a: Activity, lifecycle: Lifecycle, signal: Signal, now: int)
    requires signal == Semantic || signal == Control
    ensures Clock(After(s, RecordActivity(a.(signal := signal)), now)) == Some(now)
    ensures Clock(After(s, RecordPlanning(lifecycle, signal), now)) == Some(now)
  {
  }

  /** Only a record of an item, a new run and the end of the run touch its view; the last closes it if it was open. */
  lemma OthersKeepView(s: Option<Snapshot>, op: Operation, now: int, n: Id)
    requires op != StartRun && (op.RecordActivity? ==> op.a.item != n)
    ensures !op.FinalizeRun? ==> ViewOf(After(s, op, now), n) == ViewOf(s, n)
    ensures op.FinalizeRun? ==>
      && ViewOf(After(s, op, now), n).Some? == ViewOf(s, n).Some?
      && (ViewOf(s, n).Some? ==> ViewOf(After(s, op, now), n).value.lifecycle !in {Running, Retrying, Waiting})
  {
  }

  /** A signal that an item shows it is alive, or that it gets ahead. */
  predicate Moves(signal: Signal, transport: bool) {
    if transport then signal == Transport else signal == Semantic || signal == Control
  }

  function ItemClock(v: Option<ItemView>, transport: bool): Option<int> {
    if v.None? then None else if transport then v.value.transportAt else v.value.lastMeaningfulAt
  }

  /** The time of the last such signal of the item in the present run, or what its view had at first. */
  function LastSignal(s: Option<Snapshot>, ops: seq<(Operation, int)>, n: Id, transport: bool): Option<int> {
    if ops == [] then ItemClock(ViewOf(s, n), transport) else
      var before, last := LastSignal(s, ops[..|ops| - 1], n, transport), ops[|ops| - 1];
      match last.0
      case StartRun => None
      case RecordActivity(a) => if a.item == n && Moves(a.signal, transport) then Some(last.1) else before
      case _ => before
  }

  function AfterAll(s: Option<Snapshot>, ops: seq<(Operation, int)>): Option<Snapshot> {
    if ops == [] then s else After(AfterAll(s, ops[..|ops| - 1]), ops[|ops| - 1].0, ops[|ops| - 1].1)
  }

  /**
   Over every sequence of operations the two clocks of a WorkItem are exact: one is the time of
   its last transport signal in this run, the other that of its last semantic or control signal.
   */
  lemma {:induction false} ItemClocksAreExact(s: Option<Snapshot>, ops: seq<(Operation, int)>, n: Id, transport: bool)
    ensures ItemClock(ViewOf(AfterAll(s, ops), n), transport) == LastSignal(s, ops, n, transport)
  {
    if ops != [] {
      var init, last := ops[..|ops| - 1], ops[|ops| - 1];
      ItemClocksAreExact(s, init, n, transport);
      ItemClockStep(AfterAll(s, init), last.0, last.1, n, transport);
    }
  }

  lemma ItemClockStep(s: Option<Snapshot>, op: Operation, now: int, n: Id, transport: bool)
    ensures ItemClock(ViewOf(After(s, op, now), n), transport) ==
      if op == StartRun then None
      else if op.RecordActivity? && op.a.item == n && Moves(op.a.signal, transport) then Some(now)
      else ItemClock(ViewOf(s, n), transport)
  {
  }

  /** The view of a recorded item tells what was recorded; its response state stays where none is given. */
  lemma RecordedView(s: Option<Snapshot>, a: Activity, now: int)
    ensures var v := ViewOf(After(s, RecordActivity(a), now), a.item);
      && v.Some? && v.value.lifecycle == a.lifecycle && v.value.activity == a.activity && v.value.event == a.event
      && v.value.lastEventAt == Some(now)
      && (a.llm.Some? ==> v.value.llmState == a.llm)
      && (a.llm.None? && ViewOf(s, a.item).Some? ==> v.value.llmState == ViewOf(s, a.item).value.llmState)
  {
  }

  /**
   Of the run's own operations, a new run and a state that is not terminal renew the clock; a run
   that is only made sure of renews it when there is none or it is pending; and over a snapshot
   batches, heartbeats, a terminal state and the end of the run leave it alone.
   */
  lemma RunOperationsRenewIff(s: Option<Snapshot>, lifecycle: Lifecycle, batch: string, cancelled: bool, now: int)
    ensures Clock(After(s, StartRun, now)) == Some(now)
    ensures Clock(After(s, EnsureRun, now)) == if s.None? || s.value.lifecycle == Pending then Some(now) else Clock(s)
    ensures lifecycle != Terminal ==> Clock(After(s, SetRunState(lifecycle), now)) == Some(now)
    ensures s.Some? ==>
      && Clock(After(s, SetRunState(Terminal), now)) == Clock(s)
        && Clock(After(s, FinalizeRun(cancelled), now)) == Clock(s)
      && Clock(After(s, StartBatch(batch), now)) == Clock(s) && Clock(After(s, FinishBatch(batch), now)) == Clock(s)
      && Clock(After(s, Beat, now)) == Clock(s)
  {
  }

  /** The end of a run closes just the items that were open, with their response if that was open too. */
  lemma FinalizingClosesOpenItems(s: Snapshot, cancelled: bool, now: int, n: Id)
    requires n in s.items
    ensures var before, after := s.items[n], ViewOf(After(Some(s), FinalizeRun(cancelled), now), n);
      && after.Some?
      && (before.lifecycle == Pending || before.lifecycle == Terminal ==> after.value == before)
      && (before.lifecycle == Running || before.lifecycle == Waiting || before.lifecycle == Retrying ==>
            && after.value.lifecycle == Terminal && after.value.lastEventAt == Some(now)
            && after.value.lastMeaningfulAt == before.lastMeaningfulAt && after.value.transportAt == before.transportAt
            && (before.llmState == Some("streaming") || before.llmState == Some("started") ==>
                  after.value.llmState == Some(if cancelled then "cancelled" else "failed"))
            && (before.llmState == None || before.llmState == Some("completed")
                ==> after.value.llmState == before.llmState))
  {
  }
}
