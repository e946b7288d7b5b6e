/**
 The handoff of a freshly created response stream from the connecting thread to the waiting
 caller: a queue of one slot, a lock, and an `abandoned` flag, interleaved step by step.
 Every lock acquisition, test, queue operation and release is a step of its own.
 */
module StreamHandoff {
  import opened WorkItems

  /** What the creation call produced. */
  datatype Kind = Stream | Error

  datatype Creator =
    | Creating
    | WantsLock(kind: Kind)
    | Testing(kind: Kind)
    | Putting(kind: Kind)
    | QueueWasFull
    | Releasing(kind: Kind, delivered: bool)
    | Closing
    | CreatorDone

  datatype Outcome = Returned | RaisedError | RaisedTimeout

  datatype Caller =
    | Waiting
    | Got(kind: Kind)
    | TimedOut
    | Abandoning
    | Draining
    | CallerReleasing(late: Option<Kind>)
    | ClosingLate
    | CallerDone(outcome: Outcome)

  datatype Holder = Free | ByCreator | ByCaller

  /** `closed` counts the calls of `close_late_stream`. */
  datatype State = State(creator: Creator, caller: Caller, queue: Option<Kind>, abandoned: bool, lock: Holder,
                         created: bool, closed: nat)

  const INITIAL := State(Creating, Waiting, None, false, Free, false, 0)

  datatype Step =
    | CreateReturns(kind: Kind)
    | CreatorAcquires
    | CreatorTests
    | CreatorPuts
    | CreatorReleases
    | CreatorCloses
    | CallerGets
    | CallerTimesOut
    | CallerAcquires
    | CallerAbandons
    | CallerDrains
    | CallerReleases
    | CallerClosesLate
    | CallerFinishes

  /** The state after a step, if the step is possible. */
  function After(s: State, step: Step): Option<State> {
    match step
    case CreateReturns(kind) =>
      if s.creator == Creating then Some(s.(creator := WantsLock(kind), created := kind == Stream)) else None
    case CreatorAcquires =>
      if s.creator.WantsLock? && s.lock == Free then Some(s.(creator := Testing(s.creator.kind), lock := ByCreator))
      else None
    case CreatorTests =>
      if s.creator.Testing? then
        Some(s.(creator := if s.abandoned then Releasing(s.creator.kind, false) else Putting(s.creator.kind)))
      else None
    case CreatorPuts =>
      if !s.creator.Putting? then None
      else if s.queue.Some? then Some(s.(creator := QueueWasFull))
      else Some(s.(creator := Releasing(s.creator.kind, true), queue := Some(s.creator.kind)))
    case CreatorReleases =>
      if s.creator.Releasing? then
        Some(s.(creator := if s.creator.kind == Stream && !s.creator.delivered then Closing else CreatorDone,
                lock := Free))
      else None
    case CreatorCloses =>
      if s.creator == Closing then Some(s.(creator := CreatorDone, closed := s.closed + 1)) else None
    case CallerGets =>
      if s.caller == Waiting && s.queue.Some? then Some(s.(caller := Got(s.queue.value), queue := None)) else None
    case CallerTimesOut =>
      if s.caller == Waiting then Some(s.(caller := TimedOut)) else None
    case CallerAcquires =>
      if s.caller == TimedOut && s.lock == Free then Some(s.(caller := Abandoning, lock := ByCaller)) else None
    case CallerAbandons =>
      if s.caller == Abandoning then Some(s.(caller := Draining, abandoned := true)) else None
    case CallerDrains =>
      if s.caller == Draining then Some(s.(caller := CallerReleasing(s.queue), queue := None)) else None
    case CallerReleases =>
      if s.caller.CallerReleasing? then
        Some(s.(caller := if s.caller.late == Some(Stream) then ClosingLate else CallerDone(RaisedTimeout),
                lock := Free))
      else None
    case CallerClosesLate =>
      if s.caller == ClosingLate then Some(s.(caller := CallerDone(RaisedTimeout), closed := s.closed + 1)) else None
    case CallerFinishes =>
      if s.caller.Got? then Some(s.(caller := CallerDone(if s.caller.kind == Stream then Returned else RaisedError)))
      else None
  }

  ghost predicate IsRun(states: seq<State>, steps: seq<Step>) {
    && |states| == |steps| + 1 && states[0] == INITIAL
    && forall k :: 0 <= k < |steps| ==> After(states[k], steps[k]) == Some(states[k + 1])
  }

  // ---- Who owns the stream ----

  function One(b: bool): nat {
    if b then 1 else 0
  }

  predicate CreatorHolds(c: Creator) {
    match c
    case WantsLock(kind) => kind == Stream
    case Testing(kind) => kind == Stream
    case Putting(kind) => kind == Stream
    case Releasing(kind, delivered) => kind == Stream && !delivered
    case Closing => true
    case _ => false
  }

  predicate CallerHolds(c: Caller) {
    match c
    case Got(kind) => kind == Stream
    case CallerReleasing(late) => late == Some(Stream)
    case ClosingLate => true
    case _ => false
  }

  /** The number of places the stream is in: a thread's hands, the queue, the caller's result, closed. */
  function Places(s: State): nat {
    One(CreatorHolds(s.creator)) + One(CallerHolds(s.caller)) + One(s.queue == Some(Stream))
    + One(s.caller == CallerDone(Returned)) + s.closed
  }

  predicate CreatorBeforeDelivery(c: Creator) {
    c == Creating || c.WantsLock? || c.Testing? || c.Putting?
  }

  predicate CreatorInLock(c: Creator) {
    c.Testing? || c.Putting? || c.Releasing?
  }

  predicate CallerInLock(c: Caller) {
    c == Abandoning || c == Draining || c.CallerReleasing?
  }

  predicate CallerAfterAbandon(c: Caller) {
    c == Draining || c.CallerReleasing? || c == ClosingLate || c == CallerDone(RaisedTimeout)
  }

  /** What the creation produced, as far as a creator before its delivery knows it. */
  function HeldKind(c: Creator): Option<Kind> {
    match c
    case WantsLock(kind) => Some(kind)
    case Testing(kind) => Some(kind)
    case Putting(kind) => Some(kind)
    case _ => None
  }

  /** A stream was created exactly when the thing handed over is one; nothing is kept back unless the caller gave up. */
  predicate KindsAgree(s: State) {
    && (HeldKind(s.creator).Some? ==> s.created == (HeldKind(s.creator).value == Stream))
    && (s.queue.Some? ==> s.created == (s.queue.value == Stream))
    && (s.caller.Got? ==> s.created == (s.caller.kind == Stream))
    && (s.caller == CallerDone(RaisedError) ==> !s.created)
    && (s.creator.Releasing? && !s.creator.delivered ==> s.abandoned)
    && (s.creator == Closing ==> s.abandoned)
  }

  /** What every interleaving keeps. */
  predicate Invariant(s: State) {
    && KindsAgree(s)
    && Places(s) == One(s.created)
    && s.creator != QueueWasFull
    && (s.lock == ByCreator <==> CreatorInLock(s.creator))
    && (s.lock == ByCaller <==> CallerInLock(s.caller))
    && (s.abandoned <==> CallerAfterAbandon(s.caller))
    && (s.creator == Creating ==> !s.created)
    && (CreatorBeforeDelivery(s.creator) ==>
          && s.queue == None && !s.caller.Got? && s.caller != CallerDone(Returned)
          && s.caller != CallerDone(RaisedError))
    && (s.creator.Putting? ==> !s.abandoned)
    && (s.queue.Some? ==> s.caller == Waiting || s.caller == TimedOut || s.caller == Abandoning || s.caller == Draining)
  }

  predicate CreatorStep(step: Step) {
    step.CreateReturns? || step == CreatorAcquires || step == CreatorTests || step == CreatorPuts
      || step == CreatorReleases || step == CreatorCloses
  }

  lemma CreatorBeginsKeepsInvariant(s: State, step: Step)
    requires Invariant(s) && (step.CreateReturns? || step == CreatorAcquires || step == CreatorTests)
    requires After(s, step).Some?
    ensures Invariant(After(s, step).value)
  {
  }

  lemma CreatorEndsKeepsInvariant(s: State, step: Step)
    requires Invariant(s) && (step == CreatorPuts || step == CreatorReleases || step == CreatorCloses)
    requires After(s, step).Some?
    ensures Invariant(After(s, step).value)
  {
    match s.caller {
      case CallerDone(Returned) =>
      case CallerDone(RaisedError) =>
      case CallerDone(RaisedTimeout) =>
      case _ =>
    }
  }

  lemma CreatorKeepsInvariant(s: State, step: Step)
    requires Invariant(s) && CreatorStep(step) && After(s, step).Some?
    ensures Invariant(After(s, step).value)
  {
    if step == CreatorPuts || step == CreatorReleases || step == CreatorCloses {
      CreatorEndsKeepsInvariant(s, step);
    } else {
      CreatorBeginsKeepsInvariant(s, step);
    }
  }

  lemma WaitingCallerKeepsInvariant(s: State, step: Step)
    requires Invariant(s) && (step == CallerGets || step == CallerTimesOut || step == CallerFinishes)
    requires After(s, step).Some?
    ensures Invariant(After(s, step).value)
  {
  }

  lemma CallerKeepsInvariant(s: State, step: Step)
    requires Invariant(s) && !CreatorStep(step) && After(s, step).Some?
    ensures Invariant(After(s, step).value)
  {
    if step == CallerGets || step == CallerTimesOut || step == CallerFinishes {
      WaitingCallerKeepsInvariant(s, step);
    }
  }

  lemma StepKeepsInvariant(s: State, step: Step)
    requires Invariant(s) && After(s, step).Some?
    ensures Invariant(After(s, step).value)
  {
    if CreatorStep(step) {
      CreatorKeepsInvariant(s, step);
    } else {
      CallerKeepsInvariant(s, step);
    }
  }

  lemma {:induction false} RunKeepsInvariant(states: seq<State>, steps: seq<Step>, k: nat)
    requires IsRun(states, steps) && k <= |steps|
    ensures Invariant(states[k])
  {
    if k > 0 {
      RunKeepsInvariant(states, steps, k - 1);
      assert After(states[k - 1], steps[k - 1]) == Some(states[k - 1 + 1]);
      StepKeepsInvariant(states[k - 1], steps[k - 1]);
    }
  }

  predicate BothFinished(s: State) {
    s.creator == CreatorDone && s.caller.CallerDone?
  }

  /**
   In every interleaving, a created stream is at each moment in exactly one place, and the put
   never meets a full queue. Once both sides have finished it was either returned to the caller
   or closed once, never both, the queue is empty, and a timeout never returned it.
   */
  lemma StreamEndsInOnePlace(states: seq<State>, steps: seq<Step>, k: nat)
    requires IsRun(states, steps) && k <= |steps|
    ensures Places(states[k]) == One(states[k].created)
    ensures states[k].creator != QueueWasFull
    ensures BothFinished(states[k]) ==>
      && states[k].queue != Some(Stream)
      && One(states[k].caller.outcome == Returned) + states[k].closed == One(states[k].created)
    ensures states[k].caller == CallerDone(RaisedTimeout) && BothFinished(states[k]) ==> states[k].queue == None
  {
    RunKeepsInvariant(states, steps, k);
  }

  // ---- Every run ends ----

  function CreatorRank(c: Creator): nat {
    match c
    case Creating => 6
    case WantsLock(_) => 5
    case Testing(_) => 4
    case Putting(_) => 3
    case Releasing(_, _) => 2
    case Closing => 1
    case _ => 0
  }

  function CallerRank(c: Caller): nat {
    match c
    case Waiting => 6
    case TimedOut => 5
    case Abandoning => 4
    case Draining => 3
    case CallerReleasing(_) => 2
    case ClosingLate => 1
    case Got(_) => 1
    case CallerDone(_) => 0
  }

  function Rank(s: State): nat {
    CreatorRank(s.creator) + CallerRank(s.caller)
  }

  lemma StepLowersRank(s: State, step: Step)
    requires After(s, step).Some?
    ensures Rank(After(s, step).value) < Rank(s)
  {
  }

  lemma CreatorStepPossible(s: State)
    requires Invariant(s) && s.creator != CreatorDone && s.lock != ByCaller
    ensures exists step :: After(s, step).Some?
  {
    match s.creator {
      case Creating => assert After(s, CreateReturns(Stream)).Some?;
      case WantsLock(_) => assert After(s, CreatorAcquires).Some?;
      case Testing(_) => assert After(s, CreatorTests).Some?;
      case Putting(_) => assert After(s, CreatorPuts).Some?;
      case Releasing(_, _) => assert After(s, CreatorReleases).Some?;
      case Closing => assert After(s, CreatorCloses).Some?;
      case _ =>
    }
  }

  /** No deadlock: while either side is unfinished, some step is possible. */
  lemma SomeStepPossible(s: State)
    requires Invariant(s) && !BothFinished(s)
    ensures exists step :: After(s, step).Some?
  {
    match s.caller {
      case Waiting => assert After(s, CallerTimesOut).Some?;
      case Got(_) => assert After(s, CallerFinishes).Some?;
      case Abandoning => assert After(s, CallerAbandons).Some?;
      case Draining => assert After(s, CallerDrains).Some?;
      case CallerReleasing(_) => assert After(s, CallerReleases).Some?;
      case ClosingLate => assert After(s, CallerClosesLate).Some?;
      case CallerDone(_) => CreatorStepPossible(s);
      case TimedOut =>
        if s.lock == Free {
          assert After(s, CallerAcquires).Some?;
        } else {
          CreatorStepPossible(s);
        }
    }
  }

  lemma {:induction false} RankBoundsLength(states: seq<State>, steps: seq<Step>, k: nat)
    requires IsRun(states, steps) && k <= |steps|
    ensures k + Rank(states[k]) <= Rank(INITIAL)
  {
    if k > 0 {
      RankBoundsLength(states, steps, k - 1);
      assert After(states[k - 1], steps[k - 1]) == Some(states[k - 1 + 1]);
      StepLowersRank(states[k - 1], steps[k - 1]);
    }
  }

  /** A run takes at most twelve steps, and one that cannot go on has finished both sides. */
  lemma RunsFinish(states: seq<State>, steps: seq<Step>)
    requires IsRun(states, steps)
    ensures |steps| <= 12
    ensures (forall step :: After(states[|steps|], step).None?) ==> BothFinished(states[|steps|])
  {
    RankBoundsLength(states, steps, |steps|);
    RunKeepsInvariant(states, steps, |steps|);
    if !BothFinished(states[|steps|]) {
      SomeStepPossible(states[|steps|]);
    }
  }

  // ---- What is created in time reaches the caller ----

  ghost predicate IsPath(states: seq<State>, steps: seq<Step>) {
    && |states| == |steps| + 1
    && forall k :: 0 <= k < |steps| ==> After(states[k], steps[k]) == Some(states[k + 1])
  }

  ghost predicate LeadsTo(s: State, t: State) {
    exists states: seq<State>, steps: seq<Step> :: IsPath(states, steps) && states[0] == s && states[|steps|] == t
  }

  lemma StaysPut(s: State)
    ensures LeadsTo(s, s)
  {
    var states: seq<State>, steps: seq<Step> := [s], [];
    assert IsPath(states, steps) && states[0] == s && states[|steps|] == s;
  }

  lemma StepThenLeads(s: State, step: Step, t: State)
    requires After(s, step).Some? && LeadsTo(After(s, step).value, t)
    ensures LeadsTo(s, t)
  {
    var states: seq<State>, steps: seq<Step> :|
      IsPath(states, steps) && states[0] == After(s, step).value && states[|steps|] == t;
    var states', steps' := [s] + states, [step] + steps;
    forall k | 0 <= k < |steps'| ensures After(states'[k], steps'[k]) == Some(states'[k + 1]) {
      assert k > 0 ==> steps'[k] == steps[k - 1] && states'[k] == states[k - 1] && states'[k + 1] == states[k];
    }
    assert IsPath(states', steps') && states'[0] == s && states'[|steps'|] == t;
  }

  /** The creator has this to hand over, or has put it into the queue. */
  predicate Offers(s: State, kind: Kind) {
    HeldKind(s.creator) == Some(kind) || s.queue == Some(kind)
  }

  /** The creator's step on its way to a delivery to a caller that waits. */
  function DeliveryStep(c: Creator): Step {
    match c
    case WantsLock(_) => CreatorAcquires
    case Testing(_) => CreatorTests
    case Putting(_) => CreatorPuts
    case _ => CreatorReleases
  }

  lemma {:induction false} DeliveryCompletes(s: State, kind: Kind) returns (t: State)
    requires Invariant(s) && s.caller == Waiting && Offers(s, kind)
    ensures LeadsTo(s, t) && Invariant(t) && BothFinished(t)
    ensures t.caller == CallerDone(if kind == Stream then Returned else RaisedError)
    decreases CreatorRank(s.creator)
  {
    if s.creator != CreatorDone {
      var s' := After(s, DeliveryStep(s.creator)).value;
      StepKeepsInvariant(s, DeliveryStep(s.creator));
      t := DeliveryCompletes(s', kind);
      StepThenLeads(s, DeliveryStep(s.creator), t);
    } else {
      var got := After(s, CallerGets).value;
      StepKeepsInvariant(s, CallerGets);
      t := After(got, CallerFinishes).value;
      StepKeepsInvariant(got, CallerFinishes);
      StaysPut(t);
      StepThenLeads(got, CallerFinishes, t);
      StepThenLeads(s, CallerGets, t);
    }
  }

  /**
   From every state of every run in which the caller still waits and something was created, the
   caller can get it: a stream is returned and not closed, an error is raised.
   */
  lemma CreatedInTimeReachesCaller(states: seq<State>, steps: seq<Step>, k: nat, kind: Kind)
    requires IsRun(states, steps) && k <= |steps|
    requires states[k].caller == Waiting && Offers(states[k], kind)
    ensures exists t :: LeadsTo(states[k], t) && BothFinished(t) && t.closed == 0
              && t.caller == CallerDone(if kind == Stream then Returned else RaisedError)
  {
    RunKeepsInvariant(states, steps, k);
    var t := DeliveryCompletes(states[k], kind);
    assert t.closed == 0;
  }

  /** A caller that gave up before anything was created raises its timeout, and a stream created later is closed. */
  lemma LateStreamIsClosed(s: State, kind: Kind) returns (t: State)
    requires Invariant(s) && s.caller == CallerDone(RaisedTimeout) && s.creator == WantsLock(kind)
    ensures LeadsTo(s, t) && Invariant(t) && BothFinished(t) && t.caller == CallerDone(RaisedTimeout)
    ensures t.created == s.created
  {
    var testing := After(s, CreatorAcquires).value;
    StepKeepsInvariant(s, CreatorAcquires);
    var releasing := After(testing, CreatorTests).value;
    StepKeepsInvariant(testing, CreatorTests);
    var released := After(releasing, CreatorReleases).value;
    StepKeepsInvariant(releasing, CreatorReleases);
    t := released;
    StaysPut(t);
    if kind == Stream {
      t := After(released, CreatorCloses).value;
      StepKeepsInvariant(released, CreatorCloses);
      StaysPut(t);
      StepThenLeads(released, CreatorCloses, t);
    }
    StepThenLeads(releasing, CreatorReleases, t);
    StepThenLeads(testing, CreatorTests, t);
    StepThenLeads(s, CreatorAcquires, t);
  }

  const GIVEN_UP := INITIAL.(caller := CallerDone(RaisedTimeout), abandoned := true)

  lemma LockedGivesUp(t: State)
    requires LeadsTo(GIVEN_UP, t)
    ensures LeadsTo(INITIAL.(caller := Abandoning, lock := ByCaller), t)
  {
    var locked := INITIAL.(caller := Abandoning, lock := ByCaller);
    var draining := locked.(caller := Draining, abandoned := true);
    StepThenLeads(draining.(caller := CallerReleasing(None)), CallerReleases, t);
    StepThenLeads(draining, CallerDrains, t);
    StepThenLeads(locked, CallerAbandons, t);
  }

  lemma CallerGivesUp(t: State)
    requires LeadsTo(GIVEN_UP, t)
    ensures LeadsTo(INITIAL, t)
  {
    LockedGivesUp(t);
    StepThenLeads(INITIAL.(caller := TimedOut), CallerAcquires, t);
    StepThenLeads(INITIAL, CallerTimesOut, t);
  }

  lemma TimeoutComes(kind: Kind) returns (t: State)
    ensures LeadsTo(INITIAL, t) && BothFinished(t) && t.caller == CallerDone(RaisedTimeout)
    ensures t.closed == if kind == Stream then 1 else 0
  {
    t := LateStreamIsClosed(GIVEN_UP.(creator := WantsLock(kind), created := kind == Stream), kind);
    StepThenLeads(GIVEN_UP, CreateReturns(kind), t);
    CallerGivesUp(t);
  }

  /** Each of the three outcomes is reached by some run, with both sides finished. */
  lemma EveryOutcomeIsPossible(outcome: Outcome)
    ensures exists states: seq<State>, steps: seq<Step> ::
              IsRun(states, steps) && BothFinished(states[|steps|]) && states[|steps|].caller == CallerDone(outcome)
  {
    var t := INITIAL;
    if outcome == RaisedTimeout {
      t := TimeoutComes(Stream);
    } else {
      var kind := if outcome == Returned then Stream else Error;
      t := DeliveryCompletes(INITIAL.(creator := WantsLock(kind), created := kind == Stream), kind);
      StepThenLeads(INITIAL, CreateReturns(kind), t);
    }
    var states: seq<State>, steps: seq<Step> :| IsPath(states, steps) && states[0] == INITIAL && states[|steps|] == t;
    assert IsRun(states, steps);
  }
}
