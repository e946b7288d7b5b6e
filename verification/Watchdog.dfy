/**
 The coordinator's monitor of one Worker: a renewable deadline on meaningful progress, and a
 window per stalled WorkItem that must stay open for a grace period before the Worker is stopped.
 */
module Watchdog {
  import opened Graphs
  import opened WorkItems
  import opened ProgressStore

  // ---- One stall observation ----

  datatype StallKind = TransportStall | SemanticStall

  /** `marker` is the clock that has not moved. */
  datatype Observation = Observation(kind: StallKind, marker: int, idle: int)

  /** The stall thresholds by activity, as configured. */
  datatype Thresholds = Thresholds(transportLlm: int, semantic: map<string, int>, semanticDefault: int) {
    function Semantic(activity: string): int {
      if activity in semantic then semantic[activity] else semanticDefault
    }
  }

  predicate LlmOpen(v: ItemView) {
    v.activity == "llm" && v.llmState.GetOr("idle") in {"started", "streaming"}
  }

  predicate OperationOpen(v: ItemView) {
    v.activity in {"tool", "artifact", "sandbox", "integration"} && v.event in {"tool_started", "file_write_started"}
  }

  /** The observation of one WorkItem view, if it is active, monitorable and idle for too long. */
  function Observe(v: ItemView, start: int, now: int, t: Thresholds): Option<Observation> {
    if v.lifecycle != Running && v.lifecycle != Retrying then None
    else if v.lastEventAt.None? || v.lastEventAt.value < start then None
    else if LlmOpen(v) then
      if v.transportAt.Some? && Max(0, now - v.transportAt.value) >= t.transportLlm
      then Some(Observation(TransportStall, v.transportAt.value, Max(0, now - v.transportAt.value))) else None
    else if OperationOpen(v) then
      if v.lastMeaningfulAt.Some? && Max(0, now - v.lastMeaningfulAt.value) >= t.Semantic(v.activity)
      then Some(Observation(SemanticStall, v.lastMeaningfulAt.value, Max(0, now - v.lastMeaningfulAt.value))) else None
    else None
  }

  function Observations(s: Option<Snapshot>, start: int, now: int, t: Thresholds): map<Id, Observation> {
    if s.None? then map[] else
      map n | n in s.value.items
        && Observe(s.value.items[n], start, now, t).Some? :: Observe(s.value.items[n], start, now, t).value
  }

  method StallObservations(s: Option<Snapshot>, start: int, now: int, t: Thresholds) returns (r: map<Id, Observation>)
    ensures r == Observations(s, start, now, t)
  {
    r := map[];
    if s.None? {
      return;
    }
    var items := s.value.items;
    var todo := items.Keys;
    while todo != {}
      invariant todo <= items.Keys
      invariant r == map n | n in items.Keys - todo
                       && Observe(items[n], start, now, t).Some? :: Observe(items[n], start, now, t).value
      decreases |todo|
    {
      var id :| id in todo;
      ghost var done := items.Keys - todo;
      todo := todo - {id};
      assert items.Keys - todo == done + {id};
      var observation := Observe(items[id], start, now, t);
      if observation.Some? {
        r := r[id := observation.value];
      }
    }
    assert items.Keys - todo == items.Keys;
  }

  predicate SameStall(a: Observation, b: Observation) {
    a.kind == b.kind && a.marker == b.marker
  }

  /** An item with a response stream open is judged by its transport clock. */
  lemma StreamingIsObservedIff(v: ItemView, start: int, now: int, t: Thresholds)
    requires v.activity == "llm" && (v.llmState == Some("started") || v.llmState == Some("streaming"))
    requires t.transportLlm > 0
    ensures Observe(v, start, now, t).Some? <==>
      && (v.lifecycle == Running || v.lifecycle == Retrying)
      && v.lastEventAt.Some? && v.lastEventAt.value >= start
      && v.transportAt.Some? && now - v.transportAt.value >= t.transportLlm
    ensures Observe(v, start, now, t).Some? ==>
      && Observe(v, start, now, t).value.kind == TransportStall
      && Some(Observe(v, start, now, t).value.marker) == v.transportAt
  {
  }

  /** An item inside a tool call or a file write is judged by its semantic clock, and nothing else is judged at all. */
  lemma OperationIsObservedIff(v: ItemView, start: int, now: int, t: Thresholds)
    requires v.activity != "llm" || !(v.llmState == Some("started") || v.llmState == Some("streaming"))
    requires t.semanticDefault > 0 && forall a :: a in t.semantic ==> t.semantic[a] > 0
    ensures Observe(v, start, now, t).Some? <==>
      && (v.lifecycle == Running || v.lifecycle == Retrying)
      && v.lastEventAt.Some? && v.lastEventAt.value >= start
      && v.activity in {"tool", "artifact", "sandbox", "integration"}
      && (v.event == "tool_started" || v.event == "file_write_started")
      && v.lastMeaningfulAt.Some?
      && now - v.lastMeaningfulAt.value
         >= if v.activity in t.semantic then t.semantic[v.activity] else t.semanticDefault
    ensures Observe(v, start, now, t).Some? ==>
      && Observe(v, start, now, t).value.kind == SemanticStall
      && Some(Observe(v, start, now, t).value.marker) == v.lastMeaningfulAt
  {
  }

  /**
   A response stream that falls silent is seen as stalled exactly from the threshold after its last
   chunk on, whatever else the store records meanwhile short of a new run, the end of the run or a
   record of this item.
   */
  lemma SilentStreamIsSeen(s: Option<Snapshot>, a: Activity, at: int, ops: seq<(Operation, int)>,
                           start: int, now: int, t: Thresholds)
    requires a.activity == "llm" && a.llm == Some("streaming") && a.signal == Transport && a.lifecycle == Running
    requires start <= at && t.transportLlm > 0
    requires forall i :: 0 <= i < |ops| ==>
               ops[i].0 != StartRun && !ops[i].0.FinalizeRun?
                 && (ops[i].0.RecordActivity? ==> ops[i].0.a.item != a.item)
    ensures a.item in Observations(AfterAll(After(s, RecordActivity(a), at), ops), start, now, t)
      <==> now - at >= t.transportLlm
  {
    var recorded := ProgressStore.After(s, RecordActivity(a), at);
    ViewStays(recorded, ops, a.item);
    StreamingIsObservedIff(ViewOf(recorded, a.item).value, start, now, t);
  }

  lemma {:induction false} ViewStays(s: Option<Snapshot>, ops: seq<(Operation, int)>, n: Id)
    requires forall i :: 0 <= i < |ops| ==>
               ops[i].0 != StartRun && !ops[i].0.FinalizeRun? && (ops[i].0.RecordActivity? ==> ops[i].0.a.item != n)
    ensures ViewOf(AfterAll(s, ops), n) == ViewOf(s, n)
  {
    if ops != [] {
      var init, last := ops[..|ops| - 1], ops[|ops| - 1];
      ViewStays(s, init, n);
      OthersKeepView(AfterAll(s, init), last.0, last.1, n);
    }
  }

  // ---- The monitor ----

  datatype Window = Window(openedAt: int, observation: Observation)

  /**
   What one turn of the loop reads: the snapshot before the sleep, and after it. `aliveAfterSleep`
   is also what is asked once more when the deadline has ended the loop.
   */
  datatype Poll = Poll(
    alive: bool,
    now: int,
    top: Option<Snapshot>,
    aliveAfterSleep: bool,
    cancelRequested: bool,
    later: int,
    bottom: Option<Snapshot>)

  datatype Verdict = KeepPolling | ProcessExited | DeadlinePassed | CancelRequested | StallTimeout(item: Id)

  datatype Deadline = Deadline(marker: Option<int>, lastProgress: int)

  /** A marker older than the monitor belongs to an earlier Worker. */
  function FreshMarker(top: Option<Snapshot>, start: int): Option<int> {
    var marker := Clock(top);
    if marker.Some? && marker.value < start then None else marker
  }

  function Renewed(d: Deadline, top: Option<Snapshot>, start: int, now: int): Deadline {
    var marker := FreshMarker(top, start);
    if marker.Some? && marker != d.marker then Deadline(marker, if marker.value <= now then marker.value else now)
    else d
  }

  predicate InTime(d: Deadline, now: int, timeout: int) {
    timeout - Max(0, now - d.lastProgress) > 0
  }

  /** A window survives the same stall, and any change closes it; a stall without a window opens one. */
  function NextWindows(w: map<Id, Window>, observed: map<Id, Observation>, elapsed: int): map<Id, Window> {
    map n | n in observed ::
      if n in w && SameStall(observed[n], w[n].observation) then w[n] else Window(elapsed, observed[n])
  }

  datatype Settings = Settings(start: int, timeout: int, grace: int, thresholds: Thresholds)

  predicate Expired(w: map<Id, Window>, n: Id, elapsed: int, grace: int) {
    n in w && elapsed - w[n].openedAt >= grace
  }

  /** The turn gets as far as looking at stalls. */
  predicate Looks(c: Settings, d: Deadline, p: Poll) {
    p.alive && InTime(d, p.now, c.timeout) && p.aliveAfterSleep && !p.cancelRequested
  }

  class Monitor {
    const settings: Settings
    var deadline: Deadline
    var windows: map<Id, Window>

    constructor (settings: Settings)
      ensures this.settings == settings && deadline == Deadline(None, settings.start) && windows == map[]
    {
      this.settings := settings;
      deadline := Deadline(None, settings.start);
      windows := map[];
    }

    /** The loop over the windows: a change of kind or marker, or no stall any more, closes one. */
    method CloseChanged(observed: map<Id, Observation>)
      modifies this`windows
      ensures windows.Keys <= old(windows).Keys && forall n :: n in windows ==> windows[n] == old(windows)[n]
      ensures forall n :: n in old(windows)
                ==> (n in windows <==> n in observed && SameStall(observed[n], old(windows)[n].observation))
    {
      var todo := windows.Keys;
      while todo != {}
        invariant todo <= windows.Keys <= old(windows).Keys
        invariant forall n :: n in windows ==> windows[n] == old(windows)[n]
        invariant forall n :: n in old(windows) ==>
          (n in windows <==> n in todo || (n in observed && SameStall(observed[n], old(windows)[n].observation)))
        decreases |todo|
      {
        var id :| id in todo;
        todo := todo - {id};
        if id !in observed || !SameStall(observed[id], windows[id].observation) {
          windows := windows - {id};
        }
      }
    }

    /** The loop over the observations: one without a window opens it. */
    method OpenNew(observed: map<Id, Observation>, elapsed: int)
      requires windows.Keys <= observed.Keys
      modifies this`windows
      ensures windows.Keys == observed.Keys
      ensures forall n :: n in windows
                ==> windows[n] == if n in old(windows) then old(windows)[n] else Window(elapsed, observed[n])
    {
      var todo := observed.Keys;
      while todo != {}
        invariant todo <= observed.Keys && old(windows).Keys <= windows.Keys <= observed.Keys
        invariant forall n :: n in observed ==> n in windows || n in todo
        invariant forall n :: n in windows
                    ==> windows[n] == if n in old(windows) then old(windows)[n] else Window(elapsed, observed[n])
        decreases |todo|
      {
        var id :| id in todo;
        todo := todo - {id};
        if id !in windows {
          windows := windows[id := Window(elapsed, observed[id])];
        }
      }
    }

    /** The two loops over the windows and over the observations. */
    method UpdateWindows(observed: map<Id, Observation>, elapsed: int)
      modifies this`windows
      ensures windows == NextWindows(old(windows), observed, elapsed)
    {
      CloseChanged(observed);
      OpenNew(observed, elapsed);
    }

    /** The candidate whose window opened first. */
    method Earliest(candidates: set<Id>) returns (first: Id)
      requires candidates != {} && candidates <= windows.Keys
      ensures first in candidates && forall n :: n in candidates ==> windows[first].openedAt <= windows[n].openedAt
    {
      first :| first in candidates;
      var todo := candidates - {first};
      while todo != {}
        invariant todo <= candidates && first in candidates
        invariant forall n :: n in candidates - todo ==> windows[first].openedAt <= windows[n].openedAt
        decreases |todo|
      {
        var id :| id in todo;
        todo := todo - {id};
        if windows[id].openedAt < windows[first].openedAt {
          first := id;
        }
      }
    }

    /** The part of a turn that looks at stalls. */
    method LookForStalls(p: Poll) returns (v: Verdict)
      modifies this`windows
      ensures windows == WindowsLooked(settings, old(windows), p)
      ensures v == KeepPolling || v.StallTimeout?
      ensures v == KeepPolling <==> NoneExpired(settings, windows, p)
      ensures v.StallTimeout? ==> IsEarliestExpired(settings, windows, p, v.item)
    {
      var observed := StallObservations(p.bottom, settings.start, p.later, settings.thresholds);
      UpdateWindows(observed, p.now - settings.start);
      v := JudgeWindows(p);
    }

    /** The first window past its grace period, if there is one. */
    method JudgeWindows(p: Poll) returns (v: Verdict)
      ensures v == KeepPolling || v.StallTimeout?
      ensures v == KeepPolling <==> NoneExpired(settings, windows, p)
      ensures v.StallTimeout? ==> IsEarliestExpired(settings, windows, p, v.item)
    {
      var expired := set n | n in windows && Expired(windows, n, p.now - settings.start, settings.grace);
      ExpiredTells(settings, windows, p, expired);
      if expired == {} {
        return KeepPolling;
      }
      var item := Earliest(expired);
      EarliestOfExpired(settings, windows, p, expired, item);
      return StallTimeout(item);
    }

    /** One turn of the monitor loop. */
    method Turn(p: Poll) returns (v: Verdict)
      modifies this
      ensures deadline == if p.alive then Renewed(old(deadline), p.top, settings.start, p.now) else old(deadline)
      ensures windows == if Looks(settings, deadline, p) then WindowsLooked(settings, old(windows), p) else old(windows)
      ensures v == DeadlinePassed <==> p.alive && !InTime(deadline, p.now, settings.timeout)
      ensures v == ProcessExited <==> !p.alive || (InTime(deadline, p.now, settings.timeout) && !p.aliveAfterSleep)
      ensures v == CancelRequested
        <==> p.alive && InTime(deadline, p.now, settings.timeout) && p.aliveAfterSleep && p.cancelRequested
      ensures v.StallTimeout? <==> Looks(settings, deadline, p) && !NoneExpired(settings, windows, p)
      ensures v.StallTimeout? ==> IsEarliestExpired(settings, windows, p, v.item)
    {
      if !p.alive {
        return ProcessExited;
      }
      deadline := Renewed(deadline, p.top, settings.start, p.now);
      var remaining := settings.timeout - Max(0, p.now - deadline.lastProgress);
      if remaining <= 0 {
        return DeadlinePassed;
      }
      if !p.aliveAfterSleep {
        return ProcessExited;
      }
      if p.cancelRequested {
        return CancelRequested;
      }
      v := LookForStalls(p);
    }
  }

  lemma ExpiredTells(c: Settings, w: map<Id, Window>, p: Poll, expired: set<Id>)
    requires expired == set n | n in w && Expired(w, n, p.now - c.start, c.grace)
    ensures expired == {} <==> NoneExpired(c, w, p)
  {
    if NoneExpired(c, w, p) {
      assert forall n :: n !in expired;
    } else {
      var n :| n in w && Expired(w, n, p.now - c.start, c.grace);
      assert n in expired;
    }
  }

  lemma EarliestOfExpired(c: Settings, w: map<Id, Window>, p: Poll, expired: set<Id>, id: Id)
    requires expired == set n | n in w && Expired(w, n, p.now - c.start, c.grace)
    requires id in expired && forall n :: n in expired ==> w[id].openedAt <= w[n].openedAt
    ensures IsEarliestExpired(c, w, p, id)
  {
    forall n | n in w ensures w[id].openedAt <= w[n].openedAt {
      assert n !in expired ==> !Expired(w, n, p.now - c.start, c.grace);
    }
  }

  function WindowsLooked(c: Settings, w: map<Id, Window>, p: Poll): map<Id, Window> {
    NextWindows(w, ObservedAt(c, p), p.now - c.start)
  }

  ghost predicate NoneExpired(c: Settings, w: map<Id, Window>, p: Poll) {
    forall n :: n in w ==> !Expired(w, n, p.now - c.start, c.grace)
  }

  /** Past its grace period, and no such window opened earlier. */
  ghost predicate IsEarliestExpired(c: Settings, w: map<Id, Window>, p: Poll, id: Id) {
    && id in w && Expired(w, id, p.now - c.start, c.grace)
    && forall n :: n in w ==> w[id].openedAt <= w[n].openedAt
  }

  // ---- What an open window means ----

  function ObservedAt(c: Settings, p: Poll): map<Id, Observation> {
    Observations(p.bottom, c.start, p.later, c.thresholds)
  }

  /** The windows after `n` turns that all kept polling. */
  function WindowsAfter(c: Settings, polls: seq<Poll>, n: nat): map<Id, Window>
    requires n <= |polls|
  {
    if n == 0 then map[] else
      WindowsLooked(c, WindowsAfter(c, polls, n - 1), polls[n - 1])
  }

  /** At turn `i` the item is seen in the same stall as at turn `n`. */
  predicate StalledLike(c: Settings, polls: seq<Poll>, id: Id, i: nat, n: nat)
    requires i < |polls| && n < |polls|
  {
    && id in ObservedAt(c, polls[i]) && id in ObservedAt(c, polls[n])
    && ObservedAt(c, polls[i])[id].kind == ObservedAt(c, polls[n])[id].kind
    && ObservedAt(c, polls[i])[id].marker == ObservedAt(c, polls[n])[id].marker
  }

  /** `j` is the first turn of the unbroken stretch, up to turn `n`, of the stall seen at `n`. */
  ghost predicate StretchStarts(c: Settings, polls: seq<Poll>, id: Id, j: nat, n: nat)
    requires n < |polls|
  {
    && j <= n
    && (forall i :: j <= i <= n ==> StalledLike(c, polls, id, i, n))
    && (j > 0 ==> !StalledLike(c, polls, id, j - 1, n))
  }

  /**
   After turn `n` an item has a window if and only if it was seen stalled at turn `n`. The window
   was opened at the first turn of the unbroken stretch of that very stall, so any change of
   kind or marker, or one turn without the stall, starts it again from zero.
   */
  lemma {:induction false} WindowIsUnbrokenStall(c: Settings, polls: seq<Poll>, n: nat, id: Id)
    requires n < |polls|
    ensures id in WindowsAfter(c, polls, n + 1) <==> id in ObservedAt(c, polls[n])
    ensures id in WindowsAfter(c, polls, n + 1) ==>
      && SameStall(WindowsAfter(c, polls, n + 1)[id].observation, ObservedAt(c, polls[n])[id])
      && exists j: nat :: StretchStarts(c, polls, id, j, n)
           && WindowsAfter(c, polls, n + 1)[id].openedAt == polls[j].now - c.start
  {
    if id in ObservedAt(c, polls[n]) {
      var before := WindowsAfter(c, polls, n);
      if n > 0 {
        WindowIsUnbrokenStall(c, polls, n - 1, id);
      }
      if id in before && SameStall(ObservedAt(c, polls[n])[id], before[id].observation) {
        var j: nat :| StretchStarts(c, polls, id, j, n - 1) && before[id].openedAt == polls[j].now - c.start;
        StretchExtends(c, polls, id, j, n);
      } else {
        assert StretchStarts(c, polls, id, n, n);
      }
    }
  }

  lemma StretchExtends(c: Settings, polls: seq<Poll>, id: Id, j: nat, n: nat)
    requires 0 < n < |polls| && StretchStarts(c, polls, id, j, n - 1) && StalledLike(c, polls, id, n - 1, n)
    ensures StretchStarts(c, polls, id, j, n)
  {
    forall i | j <= i <= n ensures StalledLike(c, polls, id, i, n) {
      assert i < n ==> StalledLike(c, polls, id, i, n - 1);
    }
  }

  lemma StretchStartIsUnique(c: Settings, polls: seq<Poll>, id: Id, j: nat, k: nat, n: nat)
    requires n < |polls| && StretchStarts(c, polls, id, j, n) && StretchStarts(c, polls, id, k, n)
    ensures j == k
  {
    assert j > 0 ==> !StalledLike(c, polls, id, j - 1, n);
    assert k > 0 ==> !StalledLike(c, polls, id, k - 1, n);
  }

  /** The stall seen at turn `n` has lasted, unbroken, for at least the grace period. */
  ghost predicate StalledForGrace(c: Settings, polls: seq<Poll>, id: Id, n: nat)
    requires n < |polls|
  {
    exists j: nat :: StretchStarts(c, polls, id, j, n) && polls[n].now - polls[j].now >= c.grace
  }

  lemma ExpiredIffStalledForGrace(c: Settings, polls: seq<Poll>, n: nat, id: Id)
    requires n < |polls|
    ensures Expired(WindowsAfter(c, polls, n + 1), id, polls[n].now - c.start, c.grace)
      <==> StalledForGrace(c, polls, id, n)
  {
    WindowIsUnbrokenStall(c, polls, n, id);
    if id in WindowsAfter(c, polls, n + 1) {
      var j: nat :| StretchStarts(c, polls, id, j, n)
          && WindowsAfter(c, polls, n + 1)[id].openedAt == polls[j].now - c.start;
      forall k: nat | StretchStarts(c, polls, id, k, n) ensures k == j {
        StretchStartIsUnique(c, polls, id, j, k, n);
      }
    } else {
      assert forall j: nat :: StretchStarts(c, polls, id, j, n) ==> StalledLike(c, polls, id, n, n);
    }
  }

  // ---- How the supervision of a Worker ends ----

  datatype Report =
    | WorkerExited(turn: nat)
    | WorkerCancelled(turn: nat)
    | StalledInLoop(turn: nat, item: Id)
    | StalledAtBoundary(turn: nat, item: Id)
    | WorkerTimedOut(turn: nat)
    | StillPolling

  /** The deadline after the looks of the first `n` turns. */
  function DeadlineAfter(c: Settings, polls: seq<Poll>, n: nat): Deadline
    requires n <= |polls|
  {
    if n == 0 then Deadline(None, c.start)
    else Renewed(DeadlineAfter(c, polls, n - 1), polls[n - 1].top, c.start, polls[n - 1].now)
  }

  predicate Overdue(c: Settings, polls: seq<Poll>, n: nat)
    requires n < |polls|
  {
    !InTime(DeadlineAfter(c, polls, n + 1), polls[n].now, c.timeout)
  }

  ghost predicate SomeStalledForGrace(c: Settings, polls: seq<Poll>, n: nat)
    requires n < |polls|
  {
    exists id :: StalledForGrace(c, polls, id, n)
  }

  /** Nothing ends the supervision at turn `n`. */
  ghost predicate GoesOn(c: Settings, polls: seq<Poll>, n: nat)
    requires n < |polls|
  {
    && polls[n].alive && !Overdue(c, polls, n) && polls[n].aliveAfterSleep && !polls[n].cancelRequested
    && !SomeStalledForGrace(c, polls, n)
  }

  ghost predicate GoesOnUntil(c: Settings, polls: seq<Poll>, n: nat)
    requires n <= |polls|
  {
    forall i :: 0 <= i < n ==> GoesOn(c, polls, i)
  }

  /** Of all stalls seen at turn `n`, none has lasted longer, unbroken, than that of `id`. */
  ghost predicate LongestStalled(c: Settings, polls: seq<Poll>, id: Id, n: nat)
    requires n < |polls|
  {
    exists j: nat :: StretchStarts(c, polls, id, j, n)
      && forall m, k: nat :: StretchStarts(c, polls, m, k, n) ==> polls[j].now <= polls[k].now
  }

  predicate NoneObserved(c: Settings, polls: seq<Poll>, n: nat)
    requires n <= |polls|
  {
    n > 0 ==> ObservedAt(c, polls[n - 1]) == map[]
  }

  /**
   What a report says about the turns. Every report but the last names the first turn that ends
   the supervision. There, the process is gone; or it lives, within its deadline, and either a
   cancellation is requested or a stall has lasted the grace period; or it lives past its deadline
   and, in this order, a stall is open from the turn before, a cancellation is requested, or neither.
   */
  ghost predicate ReportIsTrue(c: Settings, polls: seq<Poll>, r: Report) {
    if r.StillPolling? then GoesOnUntil(c, polls, |polls|)
    else r.turn < |polls| && GoesOnUntil(c, polls, r.turn) && EndsTruly(c, polls, r)
  }

  ghost predicate EndsTruly(c: Settings, polls: seq<Poll>, r: Report)
    requires !r.StillPolling? && r.turn < |polls|
  {
    var p, overdue := polls[r.turn], Overdue(c, polls, r.turn);
    match r
    case WorkerExited(n) => !p.alive || !p.aliveAfterSleep
    case WorkerCancelled(n) =>
      p.alive && p.aliveAfterSleep && p.cancelRequested && (overdue ==> NoneObserved(c, polls, n))
    case StalledInLoop(n, id) =>
      && p.alive && p.aliveAfterSleep && !overdue && !p.cancelRequested
      && StalledForGrace(c, polls, id, n) && LongestStalled(c, polls, id, n)
    case StalledAtBoundary(n, id) =>
      p.alive && p.aliveAfterSleep && overdue && n > 0 && LongestStalled(c, polls, id, n - 1)
    case WorkerTimedOut(n) =>
      p.alive && p.aliveAfterSleep && overdue && !p.cancelRequested && NoneObserved(c, polls, n)
  }

  lemma WindowOpenedAt(c: Settings, polls: seq<Poll>, n: nat, id: Id, j: nat)
    requires n < |polls| && StretchStarts(c, polls, id, j, n)
    ensures id in WindowsAfter(c, polls, n + 1) && WindowsAfter(c, polls, n + 1)[id].openedAt == polls[j].now - c.start
  {
    assert StalledLike(c, polls, id, n, n);
    WindowIsUnbrokenStall(c, polls, n, id);
    var k: nat :| StretchStarts(c, polls, id, k, n)
        && WindowsAfter(c, polls, n + 1)[id].openedAt == polls[k].now - c.start;
    StretchStartIsUnique(c, polls, id, j, k, n);
  }

  /** The window that opened first is that of the longest stall. */
  lemma EarliestIsLongest(c: Settings, polls: seq<Poll>, w: map<Id, Window>, id: Id, n: nat)
    requires n < |polls| && w == WindowsAfter(c, polls, n + 1)
    requires id in w && forall m :: m in w ==> w[id].openedAt <= w[m].openedAt
    ensures LongestStalled(c, polls, id, n)
  {
    WindowIsUnbrokenStall(c, polls, n, id);
    var j: nat :| StretchStarts(c, polls, id, j, n)
        && WindowsAfter(c, polls, n + 1)[id].openedAt == polls[j].now - c.start;
    forall m, k: nat | StretchStarts(c, polls, m, k, n) ensures polls[j].now <= polls[k].now {
      WindowOpenedAt(c, polls, n, m, k);
    }
  }

  lemma NoWindowsMeansNoneObserved(c: Settings, polls: seq<Poll>, n: nat)
    requires n <= |polls|
    ensures WindowsAfter(c, polls, n) == map[] <==> NoneObserved(c, polls, n)
  {
    if n > 0 {
      forall id ensures id in WindowsAfter(c, polls, n) <==> id in ObservedAt(c, polls[n - 1]) {
        WindowIsUnbrokenStall(c, polls, n - 1, id);
      }
      assert WindowsAfter(c, polls, n).Keys == ObservedAt(c, polls[n - 1]).Keys;
    }
  }

  lemma NoneExpiredMeansNoneStalled(c: Settings, polls: seq<Poll>, n: nat)
    requires n < |polls|
    ensures NoneExpired(c, WindowsAfter(c, polls, n + 1), polls[n]) <==> !SomeStalledForGrace(c, polls, n)
  {
    var w := WindowsAfter(c, polls, n + 1);
    if NoneExpired(c, w, polls[n]) {
      forall id ensures !StalledForGrace(c, polls, id, n) {
        ExpiredIffStalledForGrace(c, polls, n, id);
      }
    } else {
      var id :| id in w && Expired(w, id, polls[n].now - c.start, c.grace);
      ExpiredIffStalledForGrace(c, polls, n, id);
    }
  }

  lemma NoWindowsAtFirst(c: Settings, polls: seq<Poll>)
    ensures WindowsAfter(c, polls, 0) == map[]
  {
  }

  lemma BoundaryStallIsTrue(c: Settings, polls: seq<Poll>, n: nat, id: Id)
    requires 0 < n < |polls| && polls[n].alive && polls[n].aliveAfterSleep && Overdue(c, polls, n)
    requires LongestStalled(c, polls, id, n - 1)
    ensures EndsTruly(c, polls, StalledAtBoundary(n, id))
  {
  }

  lemma BoundaryWithoutStall(c: Settings, polls: seq<Poll>, n: nat)
    requires n < |polls| && polls[n].alive && polls[n].aliveAfterSleep && Overdue(c, polls, n)
    requires WindowsAfter(c, polls, n) == map[]
    ensures EndsTruly(c, polls, if polls[n].cancelRequested then WorkerCancelled(n) else WorkerTimedOut(n))
  {
    NoWindowsMeansNoneObserved(c, polls, n);
  }

  /** What follows the loop at the deadline: the process may have ended, a stall comes before a cancellation. */
  method EndAtBoundary(monitor: Monitor, polls: seq<Poll>, turn: nat) returns (report: Report)
    requires turn < |polls| && polls[turn].alive && Overdue(monitor.settings, polls, turn)
    requires monitor.windows == WindowsAfter(monitor.settings, polls, turn)
    ensures !report.StillPolling? && report.turn == turn && EndsTruly(monitor.settings, polls, report)
  {
    if !polls[turn].aliveAfterSleep {
      return WorkerExited(turn);
    }
    if monitor.windows != map[] {
      var item := monitor.Earliest(monitor.windows.Keys);
      NoWindowsAtFirst(monitor.settings, polls);
      EarliestIsLongest(monitor.settings, polls, monitor.windows, item, turn - 1);
      BoundaryStallIsTrue(monitor.settings, polls, turn, item);
      return StalledAtBoundary(turn, item);
    }
    BoundaryWithoutStall(monitor.settings, polls, turn);
    if polls[turn].cancelRequested {
      return WorkerCancelled(turn);
    }
    return WorkerTimedOut(turn);
  }

  /** The whole loop over the turns `polls`, and what follows it: the report is true of the turns. */
  method Supervise(settings: Settings, polls: seq<Poll>) returns (report: Report)
    ensures ReportIsTrue(settings, polls, report)
  {
    var monitor := new Monitor(settings);
    var turn := 0;
    while turn < |polls|
      invariant turn <= |polls| && monitor.settings == settings
      invariant monitor.deadline == DeadlineAfter(settings, polls, turn)
      invariant monitor.windows == WindowsAfter(settings, polls, turn)
      invariant GoesOnUntil(settings, polls, turn)
    {
      var verdict := monitor.Turn(polls[turn]);
      match verdict {
        case KeepPolling =>
          NoneExpiredMeansNoneStalled(settings, polls, turn);
        case ProcessExited => return WorkerExited(turn);
        case CancelRequested => return WorkerCancelled(turn);
        case StallTimeout(item) =>
          ExpiredIffStalledForGrace(settings, polls, turn, item);
          EarliestIsLongest(settings, polls, monitor.windows, item, turn);
          return StalledInLoop(turn, item);
        case DeadlinePassed =>
          report := EndAtBoundary(monitor, polls, turn);
          return;
      }
      turn := turn + 1;
    }
    return StillPolling;
  }

  /**
   The turns determine how the supervision ends: two true reports agree, except that of several
   equally long stalls either may be named.
   */
  lemma ReportIsDetermined(c: Settings, polls: seq<Poll>, r: Report, r': Report)
    requires ReportIsTrue(c, polls, r) && ReportIsTrue(c, polls, r')
    ensures r.StillPolling? <==> r'.StillPolling?
    ensures !r.StillPolling? ==> r.turn == r'.turn
    ensures (r.WorkerExited? <==> r'.WorkerExited?) && (r.WorkerCancelled? <==> r'.WorkerCancelled?)
    ensures (r.WorkerTimedOut? <==> r'.WorkerTimedOut?) && (r.StalledInLoop? <==> r'.StalledInLoop?)
    ensures r.StalledAtBoundary? <==> r'.StalledAtBoundary?
  {
    EndingTurnDoesNotGoOn(c, polls, r);
    EndingTurnDoesNotGoOn(c, polls, r');
    if !r.StillPolling? && !r'.StillPolling? {
      assert r.turn == r'.turn;
      BoundaryStallWasObserved(c, polls, r);
      BoundaryStallWasObserved(c, polls, r');
    }
  }

  lemma EndingTurnDoesNotGoOn(c: Settings, polls: seq<Poll>, r: Report)
    requires ReportIsTrue(c, polls, r)
    ensures !r.StillPolling? ==> !GoesOn(c, polls, r.turn)
  {
  }

  lemma BoundaryStallWasObserved(c: Settings, polls: seq<Poll>, r: Report)
    requires !r.StillPolling? && r.turn < |polls| && EndsTruly(c, polls, r)
    ensures r.StalledAtBoundary? ==> !NoneObserved(c, polls, r.turn)
  {
    if r.StalledAtBoundary? {
      var j: nat :| StretchStarts(c, polls, r.item, j, r.turn - 1);
      assert StalledLike(c, polls, r.item, r.turn - 1, r.turn - 1);
    }
  }

  /**
   A stall is never missed: if `n` is the first turn at which some stall has lasted the grace
   period, and nothing else ends the supervision up to then, it ends there, with that report.
   */
  lemma StallIsReported(c: Settings, polls: seq<Poll>, n: nat, r: Report)
    requires n < |polls| && forall i :: 0 <= i <= n ==> polls[i].alive && polls[i].aliveAfterSleep
    requires forall i :: 0 <= i <= n ==> !polls[i].cancelRequested && !Overdue(c, polls, i)
    requires SomeStalledForGrace(c, polls, n) && forall i :: 0 <= i < n ==> !SomeStalledForGrace(c, polls, i)
    requires ReportIsTrue(c, polls, r)
    ensures r.StalledInLoop? && r.turn == n && StalledForGrace(c, polls, r.item, n)
  {
    EndingTurnDoesNotGoOn(c, polls, r);
    assert GoesOnUntil(c, polls, n) && !GoesOn(c, polls, n);
  }

  /**
   A silent Worker is stopped: if `n` is the first turn past the deadline, and nothing else ends
   the supervision before, it ends there.
   */
  lemma SilenceEndsSupervision(c: Settings, polls: seq<Poll>, n: nat, r: Report)
    requires n < |polls| && forall i :: 0 <= i < n ==> polls[i].alive && polls[i].aliveAfterSleep
    requires (forall i :: 0 <= i < n ==> !polls[i].cancelRequested && !Overdue(c, polls, i)) && Overdue(c, polls, n)
    requires forall i :: 0 <= i < n ==> !SomeStalledForGrace(c, polls, i)
    requires ReportIsTrue(c, polls, r)
    ensures !r.StillPolling? && r.turn == n && !r.StalledInLoop?
  {
    EndingTurnDoesNotGoOn(c, polls, r);
    assert GoesOnUntil(c, polls, n) && !GoesOn(c, polls, n);
  }

  // ---- The deadline, over every mix of store operations, losses and polls ----

  /** `Lose` is the snapshot file becoming missing or unreadable while the Worker runs. */
  datatype Action = Operate(op: Operation, at: int) | Look(at: int) | Lose(at: int)

  datatype System = System(store: Option<Snapshot>, deadline: Deadline)

  function Act(s: System, start: int, a: Action): System {
    match a
    case Operate(op, at) => s.(store := ProgressStore.After(s.store, op, at))
    case Look(at) => s.(deadline := Renewed(s.deadline, s.store, start, at))
    case Lose(_) => s.(store := None)
  }

  function ActAll(s: System, start: int, actions: seq<Action>): System {
    if actions == [] then s else Act(ActAll(s, start, actions[..|actions| - 1]), start, actions[|actions| - 1])
  }

  predicate Nondecreasing(start: int, actions: seq<Action>) {
    forall i, j :: 0 <= i <= j < |actions| ==> start <= actions[i].at <= actions[j].at
  }

  /**
   The time of the last operation that renewed the run's clock, or the clock the monitor found;
   none when the snapshot was lost since.
   */
  function LastRenewal(initial: Option<Snapshot>, actions: seq<Action>): Option<int> {
    if actions == [] then Clock(initial) else
      var init, last := actions[..|actions| - 1], actions[|actions| - 1];
      if last.Lose? then None
      else if last.Operate? && Renews(StoreAfter(initial, init), last.op) then Some(last.at)
      else LastRenewal(initial, init)
  }

  function StoreAfter(initial: Option<Snapshot>, actions: seq<Action>): Option<Snapshot> {
    if actions == [] then initial else
      var before, last := StoreAfter(initial, actions[..|actions| - 1]), actions[|actions| - 1];
      match last
      case Operate(op, at) => ProgressStore.After(before, op, at)
      case Look(_) => before
      case Lose(_) => None
  }

  function EndTime(start: int, actions: seq<Action>): int {
    if actions == [] then start else actions[|actions| - 1].at
  }

  predicate FromThisWorker(start: int, clock: Option<int>) {
    clock.Some? && clock.value >= start
  }

  /**
   The progress seen by the looks so far: the last renewal of this Worker that was readable at a
   look, or the start of the monitor.
   */
  function Seen(initial: Option<Snapshot>, start: int, actions: seq<Action>): int {
    if actions == [] then start else
      var init := actions[..|actions| - 1];
      if actions[|actions| - 1].Look? && FromThisWorker(start, LastRenewal(initial, init))
        then LastRenewal(initial, init).value
      else Seen(initial, start, init)
  }

  /** What one more look would see. */
  function Present(initial: Option<Snapshot>, start: int, actions: seq<Action>): int {
    if FromThisWorker(start, LastRenewal(initial, actions)) then LastRenewal(initial, actions).value
      else Seen(initial, start, actions)
  }

  lemma {:induction false} StoreFollowsRenewals(initial: Option<Snapshot>, start: int, actions: seq<Action>,
                                                d: Deadline)
    ensures ActAll(System(initial, d), start, actions).store == StoreAfter(initial, actions)
    ensures Clock(StoreAfter(initial, actions)) == LastRenewal(initial, actions)
  {
    if actions != [] {
      var init, last := actions[..|actions| - 1], actions[|actions| - 1];
      StoreFollowsRenewals(initial, start, init, d);
      if last.Operate? {
        ClockMovesOnlyOnRenewal(StoreAfter(initial, init), last.op, last.at);
      }
    }
  }

  lemma {:induction false} RenewalInThePast(initial: Option<Snapshot>, start: int, actions: seq<Action>)
    requires Nondecreasing(start, actions) && (Clock(initial).Some? ==> Clock(initial).value <= start)
    ensures LastRenewal(initial, actions).Some? ==> LastRenewal(initial, actions).value <= EndTime(start, actions)
    ensures start <= Seen(initial, start, actions) <= EndTime(start, actions)
  {
    if actions != [] {
      RenewalInThePast(initial, start, actions[..|actions| - 1]);
    }
  }

  /**
   The deadline's clock is exact: it is the last renewal that a look could read, or the start of
   the monitor. So it lies between the start and now, and heartbeats, transport signals over a
   readable snapshot, and snapshots of earlier Workers never move it.
   */
  lemma {:induction false} LastProgressIsExact(initial: Option<Snapshot>, start: int, actions: seq<Action>)
    requires Nondecreasing(start, actions) && (Clock(initial).Some? ==> Clock(initial).value <= start)
    ensures var d := ActAll(System(initial, Deadline(None, start)), start, actions).deadline;
      && d.lastProgress == Seen(initial, start, actions)
      && (d.marker.Some? ==> d.marker.value == d.lastProgress)
      && (d.marker.None? ==> d.lastProgress == start)
      && start <= d.lastProgress <= EndTime(start, actions)
  {
    RenewalInThePast(initial, start, actions);
    if actions != [] {
      var init, last := actions[..|actions| - 1], actions[|actions| - 1];
      LastProgressIsExact(initial, start, init);
      if last.Look? {
        StoreFollowsRenewals(initial, start, init, Deadline(None, start));
        RenewalInThePast(initial, start, init);
        LookingIsExact(ActAll(System(initial, Deadline(None, start)), start, init), start, LastRenewal(initial, init),
                       last.at);
      }
    }
  }

  /** One look: a readable clock of this Worker becomes the deadline's, and anything else leaves it alone. */
  lemma LookingIsExact(s: System, start: int, clock: Option<int>, now: int)
    requires Clock(s.store) == clock && (clock.Some? ==> clock.value <= now)
    requires s.deadline.marker.Some? ==> s.deadline.marker.value == s.deadline.lastProgress
    requires s.deadline.marker.None? ==> s.deadline.lastProgress == start
    ensures var d := Renewed(s.deadline, s.store, start, now);
      && d.lastProgress == (if FromThisWorker(start, clock) then clock.value else s.deadline.lastProgress)
      && (d.marker.Some? ==> d.marker.value == d.lastProgress)
      && (d.marker.None? ==> d.lastProgress == start)
  {
  }

  /** The clock of the deadline after these actions and one more look. */
  function LastProgress(initial: Option<Snapshot>, start: int, actions: seq<Action>, now: int): int {
    ActAll(System(initial, Deadline(None, start)), start, actions + [Look(now)]).deadline.lastProgress
  }

  lemma LastProgressIsPresent(initial: Option<Snapshot>, start: int, actions: seq<Action>, now: int)
    requires Nondecreasing(start, actions + [Look(now)]) && (Clock(initial).Some? ==> Clock(initial).value <= start)
    ensures LastProgress(initial, start, actions, now) == Present(initial, start, actions)
  {
    var all := actions + [Look(now)];
    assert all[..|all| - 1] == actions;
    LastProgressIsExact(initial, start, all);
  }

  /**
   The next look leaves the loop for the deadline exactly when the timeout has passed since the
   last renewal of this Worker that it or an earlier look could read, or since the start.
   */
  lemma DeadlineIsExact(initial: Option<Snapshot>, start: int, timeout: int, actions: seq<Action>, now: int)
    requires Nondecreasing(start, actions + [Look(now)]) && (Clock(initial).Some? ==> Clock(initial).value <= start)
    requires timeout > 0
    ensures var d := ActAll(System(initial, Deadline(None, start)), start, actions + [Look(now)]).deadline;
      !InTime(d, now, timeout) <==> now - Present(initial, start, actions) >= timeout
  {
    LastProgressIsPresent(initial, start, actions, now);
  }

  // ---- What transport signals and heartbeats do to the deadline ----

  /** The operation only proves that bytes arrive, or that the process lives. */
  predicate IsTransport(op: Operation) {
    match op
    case RecordActivity(a) => a.signal == Transport
    case RecordPlanning(_, signal) => signal == Transport
    case Beat => true
    case _ => false
  }

  lemma OneMoreOperation(start: int, actions: seq<Action>, op: Operation, at: int, now: int)
    requires Nondecreasing(start, actions + [Operate(op, at), Look(now)])
    ensures Nondecreasing(start, actions + [Look(now)])
      && Nondecreasing(start, actions + [Operate(op, at)] + [Look(now)])
    ensures Nondecreasing(start, actions) && start <= EndTime(start, actions) <= at
  {
    var all := actions + [Operate(op, at), Look(now)];
    assert actions + [Operate(op, at)] + [Look(now)] == all;
    assert all[|actions|].at == at && all[|actions| + 1].at == now;
    forall i | 0 <= i < |actions| ensures start <= all[i].at <= at <= now && all[i] == actions[i] {
    }
    forall i, j | 0 <= i <= j < |actions| ensures all[i].at <= all[j].at {
    }
  }

  /**
   In every history, losses of the snapshot included, a transport signal or heartbeat renews the
   Worker's deadline if and only if it is a signal, not a heartbeat, no snapshot can be read when
   it arrives, and it comes after the progress known by then. The deadline then counts from that
   signal; otherwise it is where it would be without it.
   */
  lemma TransportRenewsDeadlineIff(initial: Option<Snapshot>, start: int, actions: seq<Action>, op: Operation, at: int,
                                   now: int)
    requires IsTransport(op) && Nondecreasing(start, actions + [Operate(op, at), Look(now)])
    requires Clock(initial).Some? ==> Clock(initial).value <= start
    ensures LastProgress(initial, start, actions + [Operate(op, at)], now) ==
      if StoreAfter(initial, actions).None? && op != Beat then at else LastProgress(initial, start, actions, now)
    ensures LastProgress(initial, start, actions + [Operate(op, at)], now) != LastProgress(initial, start, actions, now)
      <==> StoreAfter(initial, actions).None? && op != Beat && at > LastProgress(initial, start, actions, now)
  {
    var more := actions + [Operate(op, at)];
    assert more[..|more| - 1] == actions;
    OneMoreOperation(start, actions, op, at, now);
    LastProgressIsPresent(initial, start, more, now);
    LastProgressIsPresent(initial, start, actions, now);
    RenewalInThePast(initial, start, actions);
    StoreFollowsRenewals(initial, start, actions, Deadline(None, start));
  }

  /** A heartbeat, or transport activity that finds a readable snapshot. */
  predicate IsNoise(s: Option<Snapshot>, a: Action) {
    a.Operate? && (a.op == Beat || (s.Some? && a.op.RecordActivity? && a.op.a.signal == Transport))
  }

  function WithoutNoise(initial: Option<Snapshot>, actions: seq<Action>): seq<Action> {
    if actions == [] then [] else
      var init, last := actions[..|actions| - 1], actions[|actions| - 1];
      if IsNoise(StoreAfter(initial, init), last) then WithoutNoise(initial, init)
        else WithoutNoise(initial, init) + [last]
  }

  /** Nothing of the noise is left: no heartbeat at all and, unless the snapshot was lost, no transport activity. */
  lemma {:induction false} NoNoiseIsLeft(initial: Option<Snapshot>, actions: seq<Action>)
    ensures forall a :: a in WithoutNoise(initial, actions) ==> a in actions && !(a.Operate? && a.op == Beat)
    ensures initial.Some? && (forall a :: a in actions ==> !a.Lose?) ==>
      && StoreAfter(initial, actions).Some?
      && forall a :: a in WithoutNoise(initial, actions) ==>
        !(a.Operate? && a.op.RecordActivity? && a.op.a.signal == Transport)
  {
    if actions != [] {
      var init := actions[..|actions| - 1];
      NoNoiseIsLeft(initial, init);
      assert actions == init + [actions[|actions| - 1]];
    }
  }

  /** The two snapshots agree on what decides renewals. */
  predicate SameRun(s: Option<Snapshot>, t: Option<Snapshot>) {
    && (s.Some? <==> t.Some?)
    && (s.Some? ==> s.value.lifecycle == t.value.lifecycle && s.value.meaningful == t.value.meaningful)
  }

  lemma SameRunStays(s: Option<Snapshot>, t: Option<Snapshot>, op: Operation, at: int)
    requires SameRun(s, t)
    ensures SameRun(ProgressStore.After(s, op, at), ProgressStore.After(t, op, at))
      && (Renews(s, op) <==> Renews(t, op))
    ensures IsNoise(s, Operate(op, at)) ==> SameRun(ProgressStore.After(s, op, at), t) && !Renews(s, op)
  {
  }

  lemma {:induction false} NoiseRenewsNothing(initial: Option<Snapshot>, start: int, actions: seq<Action>)
    ensures SameRun(StoreAfter(initial, actions), StoreAfter(initial, WithoutNoise(initial, actions)))
    ensures LastRenewal(initial, actions) == LastRenewal(initial, WithoutNoise(initial, actions))
    ensures Seen(initial, start, actions) == Seen(initial, start, WithoutNoise(initial, actions))
  {
    if actions != [] {
      var init, last := actions[..|actions| - 1], actions[|actions| - 1];
      var quiet := WithoutNoise(initial, init);
      NoiseRenewsNothing(initial, start, init);
      assert (quiet + [last])[..|quiet|] == quiet;
      if last.Operate? {
        SameRunStays(StoreAfter(initial, init), StoreAfter(initial, quiet), last.op, last.at);
      }
    }
  }

  lemma {:induction false} WithoutNoiseIsEarlier(initial: Option<Snapshot>, start: int, actions: seq<Action>)
    requires Nondecreasing(start, actions)
    ensures Nondecreasing(start, WithoutNoise(initial, actions))
    ensures forall i :: 0 <= i < |WithoutNoise(initial, actions)|
              ==> WithoutNoise(initial, actions)[i].at <= EndTime(start, actions)
  {
    if actions != [] {
      WithoutNoiseIsEarlier(initial, start, actions[..|actions| - 1]);
    }
  }

  /**
   Heartbeats, and transport activity that finds a readable snapshot, never move the deadline, in
   whatever number and wherever they fall: it is the one of the history without them.
   */
  lemma NoiseNeverMovesDeadline(initial: Option<Snapshot>, start: int, actions: seq<Action>, now: int)
    requires Clock(initial).Some? ==> Clock(initial).value <= start
    requires Nondecreasing(start, actions + [Look(now)])
    ensures LastProgress(initial, start, actions, now)
      == LastProgress(initial, start, WithoutNoise(initial, actions), now)
  {
    LookAfterNoise(initial, start, actions, now);
    LastProgressIsPresent(initial, start, actions, now);
    LastProgressIsPresent(initial, start, WithoutNoise(initial, actions), now);
    NoiseRenewsNothing(initial, start, actions);
  }

  lemma LookAfterNoise(initial: Option<Snapshot>, start: int, actions: seq<Action>, now: int)
    requires Nondecreasing(start, actions + [Look(now)])
    ensures Nondecreasing(start, WithoutNoise(initial, actions) + [Look(now)])
  {
    var all := actions + [Look(now)];
    assert all[|actions|].at == now;
    assert forall i :: 0 <= i < |actions| ==> all[i] == actions[i];
    assert actions != [] ==> all[|actions| - 1].at <= all[|actions|].at;
    WithoutNoiseIsEarlier(initial, start, actions);
  }

  /** A Worker starts its run, and the snapshot is lost at once. */
  function LostRun(start: int): seq<Action> {
    [Operate(StartRun, start), Lose(start)]
  }

  lemma LostRunKnowsTheStart(initial: Option<Snapshot>, start: int)
    ensures StoreAfter(initial, LostRun(start)) == None && Present(initial, start, LostRun(start)) == start
  {
    var run := LostRun(start);
    assert run[..1] == [Operate(StartRun, start)] && run[..1][..0] == [];
    assert Seen(initial, start, run[..1]) == start;
  }

  /**
   A run that shows the renewal: the Worker starts, its snapshot is lost, and one transport signal
   keeps it in time at a moment at which it would otherwise have been stopped, whatever the
   timeout is and whatever the monitor found.
   */
  lemma TransportKeepsSilentWorkerInTime(initial: Option<Snapshot>, start: int, timeout: int, a: Activity)
    requires timeout > 1 && a.signal == Transport && (Clock(initial).Some? ==> Clock(initial).value <= start)
    ensures var late, signal := start + timeout, Operate(RecordActivity(a), start + timeout - 1);
      && InTime(Deadline(None, LastProgress(initial, start, LostRun(start) + [signal], late)), late, timeout)
      && !InTime(Deadline(None, LastProgress(initial, start, LostRun(start), late)), late, timeout)
  {
    var late, at, run := start + timeout, start + timeout - 1, LostRun(start);
    assert Nondecreasing(start, run + [Operate(RecordActivity(a), at), Look(late)]);
    LostRunKnowsTheStart(initial, start);
    OneMoreOperation(start, run, RecordActivity(a), at, late);
    LastProgressIsPresent(initial, start, run, late);
    TransportRenewsDeadlineIff(initial, start, run, RecordActivity(a), at, late);
  }
}
