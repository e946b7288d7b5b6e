/**
 The bounded reader of a server-sent event stream: a daemon thread publishes events through a
 queue of one slot, retrying while the `stopped` flag is clear, and the consumer yields them
 under a deadline. Both threads are interleaved step by step.
 */
module SseReader {
  import opened WorkItems

  /**
   How the stream ends after its last event: it is exhausted, it raises an `Exception`, or the
   iteration is broken off by something that is not an `Exception`.
   */
  datatype Ending = Exhausted | Raises | Aborts

  datatype Message = Event(data: int) | Failure | End

  datatype Source = Source(events: seq<int>, ending: Ending)

  datatype Reader =
    | Pulling
    | Pulled(data: int)
    | Publishing(m: Message)
    | PuttingNow(m: Message)
    | ReaderDone

  datatype Outcome = ReturnedNormally | RaisedStreamError | RaisedTimeout | ClosedByCaller

  datatype Consumer =
    | CheckingCeiling
    | Getting
    | Handling(m: Message)
    | Suspended
    | Leaving(outcome: Outcome)
    | ConsumerDone(outcome: Outcome)

  datatype State = State(reader: Reader, consumer: Consumer, queue: Option<Message>, stopped: bool, pulled: nat,
                         yielded: seq<int>)

  const INITIAL := State(Pulling, CheckingCeiling, None, false, 0, [])

  datatype Step =
    | ReaderPulls
    | ReaderSeesStop
    | ReaderTests
    | ReaderPuts
    | ReaderFindsFull
    | CeilingPassed
    | CeilingLeft
    | ConsumerGets
    | ConsumerTimesOut
    | ConsumerHandles
    | CallerResumes
    | CallerCloses
    | ConsumerStops

  /** Where the reader goes once a message is delivered, or dropped because it was told to stop. */
  function AfterPublish(m: Message): Reader {
    match m
    case Event(_) => Pulling
    case Failure => Publishing(End)
    case End => ReaderDone
  }

  function After(src: Source, s: State, step: Step): Option<State> {
    match step
    case ReaderPulls =>
      if s.reader != Pulling then None
      else if s.pulled < |src.events| then Some(s.(reader := Pulled(src.events[s.pulled]), pulled := s.pulled + 1))
      else Some(s.(reader := Publishing(if src.ending == Raises then Failure else End)))
    case ReaderSeesStop =>
      if s.reader.Pulled? then Some(s.(reader := Publishing(if s.stopped then End else Event(s.reader.data)))) else None
    case ReaderTests =>
      if s.reader.Publishing?
        then Some(s.(reader := if s.stopped then AfterPublish(s.reader.m) else PuttingNow(s.reader.m))) else None
    case ReaderPuts =>
      if s.reader.PuttingNow? && s.queue == None
        then Some(s.(reader := AfterPublish(s.reader.m), queue := Some(s.reader.m))) else None
    case ReaderFindsFull =>
      if s.reader.PuttingNow? && s.queue.Some? then Some(s.(reader := Publishing(s.reader.m))) else None
    case CeilingPassed =>
      if s.consumer == CheckingCeiling then Some(s.(consumer := Leaving(RaisedTimeout))) else None
    case CeilingLeft =>
      if s.consumer == CheckingCeiling then Some(s.(consumer := Getting)) else None
    case ConsumerGets =>
      if s.consumer == Getting && s.queue.Some? then Some(s.(consumer := Handling(s.queue.value), queue := None))
      else None
    case ConsumerTimesOut =>
      if s.consumer == Getting then Some(s.(consumer := Leaving(RaisedTimeout))) else None
    case ConsumerHandles =>
      if !s.consumer.Handling? then None
      else (match s.consumer.m
            case Event(data) => Some(s.(consumer := Suspended, yielded := s.yielded + [data]))
            case Failure => Some(s.(consumer := Leaving(RaisedStreamError)))
            case End => Some(s.(consumer := Leaving(ReturnedNormally))))
    case CallerResumes =>
      if s.consumer == Suspended then Some(s.(consumer := CheckingCeiling)) else None
    case CallerCloses =>
      if s.consumer == Suspended then Some(s.(consumer := Leaving(ClosedByCaller))) else None
    case ConsumerStops =>
      if s.consumer.Leaving? then Some(s.(consumer := ConsumerDone(s.consumer.outcome), stopped := true)) else None
  }

  ghost predicate IsRun(src: Source, states: seq<State>, steps: seq<Step>) {
    && |states| == |steps| + 1 && states[0] == INITIAL
    && forall k :: 0 <= k < |steps| ==> After(src, states[k], steps[k]) == Some(states[k + 1])
  }

  // ---- One line of messages ----

  function Events(data: seq<int>): seq<Message> {
    seq(|data|, i requires 0 <= i < |data| => Event(data[i]))
  }

  /** Everything the reader publishes, in order. */
  function Transcript(src: Source): seq<Message> {
    Events(src.events) + (if src.ending == Raises then [Failure] else []) + [End]
  }

  /** What the consumer has finished with: the yielded events, and the message it leaves for. */
  function Processed(s: State): seq<Message> {
    Events(s.yielded)
      + (if s.consumer == Leaving(ReturnedNormally) then [End]
         else if s.consumer == Leaving(RaisedStreamError) then [Failure]
         else [])
  }

  function InConsumer(c: Consumer): seq<Message> {
    if c.Handling? then [c.m] else []
  }

  function InQueue(q: Option<Message>): seq<Message> {
    if q.Some? then [q.value] else []
  }

  function InReader(r: Reader): seq<Message> {
    match r
    case Pulled(data) => [Event(data)]
    case Publishing(m) => [m]
    case PuttingNow(m) => [m]
    case _ => []
  }

  /** How many messages the reader has produced. */
  function Produced(src: Source, s: State): nat {
    var m := InReader(s.reader);
    if s.reader == ReaderDone || m == [End] then |Transcript(src)|
    else if m == [Failure] then |src.events| + 1
    else s.pulled
  }

  predicate ReaderConsistent(src: Source, s: State) {
    && s.pulled <= |src.events|
    && (InReader(s.reader) == [Failure] ==> src.ending == Raises)
    && (!s.stopped && (s.reader == ReaderDone || InReader(s.reader) == [Failure] || InReader(s.reader) == [End])
        ==> s.pulled == |src.events|)
  }

  /** The messages on their way, oldest first. */
  function Line(s: State): seq<Message> {
    Processed(s) + (InConsumer(s.consumer) + (InQueue(s.queue) + InReader(s.reader)))
  }

  /** Until the consumer stops, the messages line up without a gap, a loss or a duplicate. */
  predicate LinedUp(src: Source, s: State) {
    Produced(src, s) <= |Transcript(src)| && Line(s) == Transcript(src)[..Produced(src, s)]
  }

  predicate OutcomeTrue(src: Source, s: State, outcome: Outcome) {
    match outcome
    case ReturnedNormally => s.yielded == src.events && src.ending != Raises
    case RaisedStreamError => s.yielded == src.events && src.ending == Raises
    case _ => true
  }

  /** At most three pulled events are not yielded: one in each thread's hands and one in the queue. */
  predicate BoundedAhead(s: State) {
    && |s.yielded| <= s.pulled <= |s.yielded| + 3
    && (s.stopped && (s.reader == Pulling || ((s.reader.Publishing? || s.reader.PuttingNow?) && s.reader.m.Event?))
        ==> s.pulled <= |s.yielded| + 2)
  }

  lemma TranscriptAt(src: Source, i: nat)
    requires i < |Transcript(src)|
    ensures Transcript(src)[i] ==
      if i < |src.events| then Event(src.events[i])
      else if src.ending == Raises && i == |src.events| then Failure
      else End
    ensures |Transcript(src)| == |src.events| + if src.ending == Raises then 2 else 1
  {
  }

  /** What a prefix of the transcript that starts with some events and then `m` tells. */
  lemma PrefixTells(src: Source, n: nat, yielded: seq<int>, m: Message, rest: seq<Message>)
    requires n <= |Transcript(src)| && Events(yielded) + ([m] + rest) == Transcript(src)[..n]
    ensures yielded <= src.events
    ensures m.Event? ==> yielded + [m.data] <= src.events
    ensures m == Failure ==> yielded == src.events && src.ending == Raises
    ensures m == End ==> yielded == src.events && src.ending != Raises
  {
    var line := Events(yielded) + ([m] + rest);
    var y := |yielded|;
    forall i | 0 <= i < y ensures i < |src.events| && src.events[i] == yielded[i] {
      assert line[i] == Event(yielded[i]);
      TranscriptAt(src, i);
    }
    if y > 0 {
      assert line[y - 1] == Event(yielded[y - 1]);
      TranscriptAt(src, y - 1);
    }
    assert line[y] == m;
    TranscriptAt(src, y);
  }

  // ---- Each step keeps the line ----

  lemma PullKeepsLine(src: Source, s: State)
    requires ReaderConsistent(src, s) && LinedUp(src, s)
    requires !s.stopped && s.reader == Pulling
    ensures After(src, s, ReaderPulls).Some?
    ensures LinedUp(src, After(src, s, ReaderPulls).value) && ReaderConsistent(src, After(src, s, ReaderPulls).value)
  {
    var s' := After(src, s, ReaderPulls).value;
    TranscriptAt(src, s.pulled);
    var next := Transcript(src)[s.pulled];
    assert InReader(s.reader) == [] && InReader(s'.reader) == [next];
    MoreInReader(s, s', next);
    assert Transcript(src)[..s.pulled + 1] == Transcript(src)[..s.pulled] + [next];
  }

  lemma MoreInReader(s: State, s': State, m: Message)
    requires s'.yielded == s.yielded && s'.consumer == s.consumer && s'.queue == s.queue
    requires InReader(s.reader) == [] && InReader(s'.reader) == [m]
    ensures Line(s') == Line(s) + [m]
  {
    assert Processed(s') == Processed(s);
  }

  /** The reader goes on with the message it holds. */
  lemma HoldingKeepsLine(src: Source, s: State, reader: Reader)
    requires ReaderConsistent(src, s) && LinedUp(src, s)
    requires InReader(reader) == InReader(s.reader) != []
    ensures LinedUp(src, s.(reader := reader)) && ReaderConsistent(src, s.(reader := reader))
  {
    assert Line(s.(reader := reader)) == Line(s);
  }

  lemma PutKeepsLine(src: Source, s: State)
    requires ReaderConsistent(src, s) && LinedUp(src, s)
    requires !s.stopped && After(src, s, ReaderPuts).Some?
    ensures LinedUp(src, After(src, s, ReaderPuts).value) && ReaderConsistent(src, After(src, s, ReaderPuts).value)
  {
    var s' := After(src, s, ReaderPuts).value;
    var m := s.reader.m;
    if m == Failure {
      // The failure is followed by the end message, which the reader publishes next.
      TranscriptAt(src, |src.events| + 1);
      assert Line(s') == Line(s) + [End];
    } else {
      assert InReader(s'.reader) == [];
      assert Line(s') == Line(s);
    }
  }

  lemma HandlingKeepsLine(src: Source, s: State)
    requires LinedUp(src, s) && !s.stopped && s.consumer.Handling?
    ensures LinedUp(src, After(src, s, ConsumerHandles).value)
  {
    var s' := After(src, s, ConsumerHandles).value;
    HandlingProcesses(s, s');
    var rest := InQueue(s.queue) + InReader(s.reader);
    assert Line(s) == Events(s.yielded) + ([s.consumer.m] + rest);
    assert Line(s') == (Events(s.yielded) + [s.consumer.m]) + ([] + rest);
  }

  lemma HandlingProcesses(s: State, s': State)
    requires s.consumer.Handling? && After(Source([], Exhausted), s, ConsumerHandles) == Some(s')
    ensures Processed(s) == Events(s.yielded)
    ensures Processed(s') == Events(s.yielded) + [s.consumer.m] && InConsumer(s'.consumer) == []
  {
    if s.consumer.m.Event? {
      assert Events(s.yielded + [s.consumer.m.data]) == Events(s.yielded) + [s.consumer.m];
    }
  }

  lemma GettingKeepsLine(src: Source, s: State)
    requires LinedUp(src, s) && !s.stopped && s.consumer == Getting && s.queue.Some?
    ensures LinedUp(src, After(src, s, ConsumerGets).value)
  {
    var s' := After(src, s, ConsumerGets).value;
    assert Processed(s') == Processed(s);
    assert Line(s') == Line(s);
  }

  /** The consumer moves without touching a message. */
  lemma WaitingKeepsLine(src: Source, s: State, consumer: Consumer)
    requires LinedUp(src, s) && InConsumer(s.consumer) == InConsumer(consumer)
    requires Processed(s.(consumer := consumer)) == Processed(s)
    ensures LinedUp(src, s.(consumer := consumer))
  {
    assert Line(s.(consumer := consumer)) == Line(s);
  }

  lemma ConsumerKeepsLine(src: Source, s: State, step: Step)
    requires LinedUp(src, s) && !s.stopped
    requires step.CeilingPassed? || step.CeilingLeft? || step.ConsumerGets? || step.ConsumerTimesOut?
             || step.ConsumerHandles? || step.CallerResumes? || step.CallerCloses?
    requires After(src, s, step).Some?
    ensures LinedUp(src, After(src, s, step).value)
  {
    var s' := After(src, s, step).value;
    if step.ConsumerHandles? {
      HandlingKeepsLine(src, s);
    } else if step.ConsumerGets? {
      GettingKeepsLine(src, s);
    } else {
      assert s' == s.(consumer := s'.consumer);
      WaitingKeepsLine(src, s, s'.consumer);
    }
  }

  /** What the consumer is about to process is the next thing in the transcript. */
  lemma HandledIsNext(src: Source, s: State)
    requires LinedUp(src, s) && s.consumer.Handling?
    ensures s.yielded <= src.events
    ensures s.consumer.m.Event? ==> s.yielded + [s.consumer.m.data] <= src.events
    ensures s.consumer.m == Failure ==> s.yielded == src.events && src.ending == Raises
    ensures s.consumer.m == End ==> s.yielded == src.events && src.ending != Raises
  {
    PrefixTells(src, Produced(src, s), s.yielded, s.consumer.m, InQueue(s.queue) + InReader(s.reader));
  }

  lemma PulledBound(src: Source, s: State)
    requires ReaderConsistent(src, s) && LinedUp(src, s) && !s.stopped && s.yielded <= src.events
    ensures |s.yielded| <= s.pulled <= |s.yielded| + 3
    ensures s.consumer.Leaving?
      && (s.reader == Pulling || ((s.reader.Publishing? || s.reader.PuttingNow?) && s.reader.m.Event?))
      ==> s.pulled <= |s.yielded| + 2
  {
    assert |Line(s)| == Produced(src, s);
    assert |Processed(s)| <= |s.yielded| + 1;
    if s.consumer == Leaving(ReturnedNormally) || s.consumer == Leaving(RaisedStreamError) {
      var m := if s.consumer == Leaving(ReturnedNormally) then End else Failure;
      assert Line(s) == Events(s.yielded) + ([m] + (InConsumer(s.consumer) + (InQueue(s.queue) + InReader(s.reader))));
      PrefixTells(src, Produced(src, s), s.yielded, m,
                  InConsumer(s.consumer) + (InQueue(s.queue) + InReader(s.reader)));
    }
  }

  // ---- The invariant ----

  predicate Invariant(src: Source, s: State) {
    && ReaderConsistent(src, s)
    && s.yielded <= src.events
    && (s.consumer.Leaving? || s.consumer.ConsumerDone? ==> OutcomeTrue(src, s, s.consumer.outcome))
    && (s.stopped <==> s.consumer.ConsumerDone?)
    && (!s.stopped ==> LinedUp(src, s))
    && BoundedAhead(s)
  }

  /** A step that does not stop the consumer keeps the line. */
  lemma StepKeepsLine(src: Source, s: State, step: Step)
    requires ReaderConsistent(src, s) && LinedUp(src, s) && !s.stopped
    requires After(src, s, step).Some? && !After(src, s, step).value.stopped
    ensures LinedUp(src, After(src, s, step).value) && ReaderConsistent(src, After(src, s, step).value)
  {
    var s' := After(src, s, step).value;
    match step {
      case ReaderPuts => PutKeepsLine(src, s);
      case ReaderPulls => PullKeepsLine(src, s);
      case ReaderTests => HoldingKeepsLine(src, s, s'.reader);
      case ReaderFindsFull => HoldingKeepsLine(src, s, s'.reader);
      case ReaderSeesStop => HoldingKeepsLine(src, s, s'.reader);
      case _ => ConsumerKeepsLine(src, s, step);
    }
  }

  lemma StepKeepsInvariant(src: Source, s: State, step: Step)
    requires Invariant(src, s) && After(src, s, step).Some?
    ensures Invariant(src, After(src, s, step).value)
  {
    var s' := After(src, s, step).value;
    if !s.stopped && !s'.stopped {
      StepKeepsLine(src, s, step);
      if s.consumer.Handling? {
        HandledIsNext(src, s);
      }
      PulledBound(src, s');
    } else if !s.stopped {
      PulledBound(src, s);
    }
  }

  lemma {:induction false} RunKeepsInvariant(src: Source, states: seq<State>, steps: seq<Step>, k: nat)
    requires IsRun(src, states, steps) && k <= |steps|
    ensures Invariant(src, states[k])
  {
    if k > 0 {
      RunKeepsInvariant(src, states, steps, k - 1);
      assert After(src, states[k - 1], steps[k - 1]) == Some(states[k - 1 + 1]);
      StepKeepsInvariant(src, states[k - 1], steps[k - 1]);
    }
  }

  /**
   In every interleaving the yielded events are an in-order prefix of the stream. A normal return
   has yielded every event, and the stream did not raise an `Exception`; a re-raised stream error
   comes only after every event; and the reader is never more than three events ahead.
   */
  lemma YieldedInOrder(src: Source, states: seq<State>, steps: seq<Step>, k: nat)
    requires IsRun(src, states, steps) && k <= |steps|
    ensures var s := states[k];
      && s.yielded <= src.events
      && (s.consumer == ConsumerDone(ReturnedNormally) ==> s.yielded == src.events && src.ending != Raises)
      && (s.consumer == ConsumerDone(RaisedStreamError) ==> s.yielded == src.events && src.ending == Raises)
      && |s.yielded| <= s.pulled <= |s.yielded| + 3
  {
    RunKeepsInvariant(src, states, steps, k);
  }

  // ---- The exchange never blocks, and the reader ends ----

  predicate Finished(s: State) {
    s.reader == ReaderDone && s.consumer.ConsumerDone?
  }

  /** How many steps the reader takes at most once the consumer has stopped. */
  function ReaderRank(r: Reader): nat {
    match r
    case ReaderDone => 0
    case Publishing(m) => (match m case End => 1 case Failure => 2 case Event(_) => 4)
    case PuttingNow(m) => (match m case End => 2 case Failure => 3 case Event(_) => 5)
    case Pulled(_) => 2
    case Pulling => 3
  }

  /**
   Once the consumer has stopped, every step brings the reader nearer to its end, and it has one
   to take until it is there: it ends after at most five, however much of the stream is left.
   */
  lemma ReaderEndsAfterStop(src: Source, s: State)
    requires s.stopped && s.consumer.ConsumerDone?
    ensures forall step :: After(src, s, step).Some? ==>
      var s' := After(src, s, step).value;
      s'.stopped && s'.consumer == s.consumer && ReaderRank(s'.reader) < ReaderRank(s.reader) <= 5
    ensures s.reader != ReaderDone ==> exists step :: After(src, s, step).Some?
  {
    var step := match s.reader
      case Pulling => ReaderPulls
      case Pulled(_) => ReaderSeesStop
      case Publishing(_) => ReaderTests
      case _ => if s.queue == None then ReaderPuts else ReaderFindsFull;
    assert s.reader != ReaderDone ==> After(src, s, step).Some?;
  }

  /** Neither side gives up. */
  predicate Patient(step: Step) {
    !step.CeilingPassed? && !step.ConsumerTimesOut? && !step.CallerCloses?
  }

  /** Steps the reader still has to take when none is in vain. */
  function ReaderWork(src: Source, s: State): int {
    var rest := 4 * (|src.events| - s.pulled) + if src.ending == Raises then 5 else 3;
    match s.reader
    case Pulling => rest
    case Pulled(_) => rest + 3
    case Publishing(m) => (match m case Event(_) => rest + 2 case Failure => 4 case End => 2)
    case PuttingNow(m) => (match m case Event(_) => rest + 1 case Failure => 3 case End => 1)
    case ReaderDone => 0
  }

  function ConsumerWork(src: Source, s: State): int {
    var rest := 4 * (|src.events| - |s.yielded|);
    match s.consumer
    case CheckingCeiling => rest + 4
    case Getting => rest + 3
    case Handling(_) => rest + 2
    case Suspended => rest + 5
    case Leaving(_) => 1
    case ConsumerDone(_) => 0
  }

  /** The step by which an exchange whose consumer has not stopped moves on. */
  function NextStep(s: State): Step {
    match s.consumer
    case CheckingCeiling => CeilingLeft
    case Handling(_) => ConsumerHandles
    case Suspended => CallerResumes
    case Leaving(_) => ConsumerStops
    case _ =>
      if s.queue.Some? then ConsumerGets
      else match s.reader
        case Pulling => ReaderPulls
        case Pulled(_) => ReaderSeesStop
        case Publishing(_) => ReaderTests
        case _ => ReaderPuts
  }

  /** While the consumer waits and nothing is queued, the reader still has a message to bring. */
  lemma WaitedForMessageComes(src: Source, s: State)
    requires Invariant(src, s) && s.consumer == Getting && s.queue == None
    ensures s.reader != ReaderDone
  {
    assert forall i :: 0 <= i < |s.yielded| ==> Line(s)[i] == Event(s.yielded[i]);
    TranscriptAt(src, |Transcript(src)| - 1);
  }

  /** No reachable state blocks: until the consumer has stopped, some step that gives nothing up makes progress. */
  lemma ExchangeMovesOn(src: Source, s: State)
    requires Invariant(src, s) && !s.stopped
    ensures Patient(NextStep(s)) && After(src, s, NextStep(s)).Some?
    ensures var s' := After(src, s, NextStep(s)).value;
      ReaderWork(src, s') + ConsumerWork(src, s') < ReaderWork(src, s) + ConsumerWork(src, s)
  {
    if s.consumer == Getting && s.queue == None {
      WaitedForMessageComes(src, s);
    }
  }

  lemma WorkIsNatural(src: Source, s: State)
    requires Invariant(src, s)
    ensures ReaderWork(src, s) >= 0 && ConsumerWork(src, s) >= 0
  {
  }

  /** Without a timeout and without the caller closing, `s` leads to `t`. */
  ghost predicate LeadsTo(src: Source, s: State, t: State) {
    exists states: seq<State>, steps: seq<Step> :: IsPatientPath(src, states, steps) && states[0] == s
      && states[|steps|] == t
  }

  ghost predicate IsPatientPath(src: Source, states: seq<State>, steps: seq<Step>) {
    IsPath(src, states, steps) && forall k :: 0 <= k < |steps| ==> Patient(steps[k])
  }

  lemma StepThenLeads(src: Source, s: State, step: Step, t: State)
    requires Patient(step) && After(src, s, step).Some? && LeadsTo(src, After(src, s, step).value, t)
    ensures LeadsTo(src, s, t)
  {
    var states: seq<State>, steps: seq<Step> :|
      IsPatientPath(src, states, steps) && states[0] == After(src, s, step).value && states[|steps|] == t;
    PathOneMore(src, s, step, states, steps);
    var states', steps' := [s] + states, [step] + steps;
    assert IsPatientPath(src, states', steps') && states'[0] == s && states'[|steps'|] == t;
  }

  lemma {:induction false} StoppedFinishes(src: Source, s: State) returns (t: State)
    requires Invariant(src, s) && s.stopped
    ensures Finished(t) && LeadsTo(src, s, t) && Invariant(src, t)
    decreases ReaderRank(s.reader)
  {
    if s.reader == ReaderDone {
      t := s;
      var states: seq<State>, steps: seq<Step> := [s], [];
      assert IsPatientPath(src, states, steps) && states[0] == s && states[|steps|] == t;
    } else {
      ReaderEndsAfterStop(src, s);
      var step :| After(src, s, step).Some?;
      StepKeepsInvariant(src, s, step);
      t := StoppedFinishes(src, After(src, s, step).value);
      StepThenLeads(src, s, step, t);
    }
  }

  lemma {:induction false} ExchangeFinishes(src: Source, s: State) returns (t: State)
    requires Invariant(src, s)
    ensures Finished(t) && LeadsTo(src, s, t) && Invariant(src, t)
    decreases !s.stopped, ReaderWork(src, s) + ConsumerWork(src, s)
  {
    if s.stopped {
      t := StoppedFinishes(src, s);
    } else {
      ExchangeMovesOn(src, s);
      var s' := After(src, s, NextStep(s)).value;
      StepKeepsInvariant(src, s, NextStep(s));
      WorkIsNatural(src, s');
      t := ExchangeFinishes(src, s');
      StepThenLeads(src, s, NextStep(s), t);
    }
  }

  /**
   From every state of every run the exchange can still come to its end on both sides, without a
   timeout and without the caller closing: no interleaving ever leads into a dead end.
   */
  lemma RunsCanFinish(src: Source, states: seq<State>, steps: seq<Step>, k: nat)
    requires IsRun(src, states, steps) && k <= |steps|
    ensures exists t: State :: t.reader == ReaderDone && t.consumer.ConsumerDone? && LeadsTo(src, states[k], t)
  {
    RunKeepsInvariant(src, states, steps, k);
    var t := ExchangeFinishes(src, states[k]);
  }

  // ---- A reader that blocks does not hold the consumer ----

  ghost predicate IsPath(src: Source, states: seq<State>, steps: seq<Step>) {
    && |states| == |steps| + 1
    && forall k :: 0 <= k < |steps| ==> After(src, states[k], steps[k]) == Some(states[k + 1])
  }

  predicate ReaderStays(states: seq<State>, reader: Reader) {
    forall k :: 0 <= k < |states| ==> states[k].reader == reader
  }

  /** The consumer comes to its end with this outcome, while the reader takes no step at all. */
  ghost predicate EndsAlone(src: Source, s: State, outcome: Outcome) {
    exists states: seq<State>, steps: seq<Step> ::
      && IsPath(src, states, steps) && ReaderStays(states, s.reader)
      && states[0] == s && states[|steps|].consumer == ConsumerDone(outcome)
  }

  lemma EndsNow(src: Source, s: State)
    requires s.consumer.ConsumerDone?
    ensures EndsAlone(src, s, s.consumer.outcome)
  {
    var states: seq<State>, steps: seq<Step> := [s], [];
    assert IsPath(src, states, steps) && ReaderStays(states, s.reader) && states[0] == s;
  }

  lemma PathOneMore(src: Source, s: State, step: Step, states: seq<State>, steps: seq<Step>)
    requires IsPath(src, states, steps) && After(src, s, step) == Some(states[0])
    ensures IsPath(src, [s] + states, [step] + steps)
  {
    var states', steps' := [s] + states, [step] + steps;
    forall k | 0 <= k < |steps'| ensures After(src, states'[k], steps'[k]) == Some(states'[k + 1]) {
      assert k > 0 ==> steps'[k] == steps[k - 1] && states'[k] == states[k - 1] && states'[k + 1] == states[k];
    }
  }

  lemma StepThenEndsAlone(src: Source, s: State, step: Step, outcome: Outcome)
    requires After(src, s, step).Some? && After(src, s, step).value.reader == s.reader
    requires EndsAlone(src, After(src, s, step).value, outcome)
    ensures EndsAlone(src, s, outcome)
  {
    var next := After(src, s, step).value;
    var states: seq<State>, steps: seq<Step> :|
      && IsPath(src, states, steps) && ReaderStays(states, next.reader)
      && states[0] == next && states[|steps|].consumer == ConsumerDone(outcome);
    PathOneMore(src, s, step, states, steps);
    var states', steps' := [s] + states, [step] + steps;
    assert ReaderStays(states', s.reader) && states'[0] == s && states'[|steps'|] == states[|steps|];
  }

  lemma LeavingEndsAlone(src: Source, s: State)
    requires s.consumer.Leaving?
    ensures EndsAlone(src, s, s.consumer.outcome)
  {
    EndsNow(src, After(src, s, ConsumerStops).value);
    StepThenEndsAlone(src, s, ConsumerStops, s.consumer.outcome);
  }

  lemma WaitingEndsAlone(src: Source, s: State)
    requires s.consumer == CheckingCeiling || s.consumer == Getting
    ensures EndsAlone(src, s, RaisedTimeout)
  {
    LeavingEndsAlone(src, s.(consumer := Leaving(RaisedTimeout)));
    StepThenEndsAlone(src, s, if s.consumer == Getting then ConsumerTimesOut else CeilingPassed, RaisedTimeout);
  }

  /**
   Whatever the reader does, even if it blocks for ever: a consumer that checks its ceiling or
   waits for a message can end in a timeout, and one whose caller has the turn can be closed or
   go on to a timeout.
   */
  lemma ConsumerEndsAlone(src: Source, s: State)
    ensures s.consumer == CheckingCeiling || s.consumer == Getting || s.consumer == Suspended
            ==> EndsAlone(src, s, RaisedTimeout)
    ensures s.consumer == Suspended ==> EndsAlone(src, s, ClosedByCaller)
  {
    if s.consumer == CheckingCeiling || s.consumer == Getting {
      WaitingEndsAlone(src, s);
    } else if s.consumer == Suspended {
      WaitingEndsAlone(src, s.(consumer := CheckingCeiling));
      StepThenEndsAlone(src, s, CallerResumes, RaisedTimeout);
      LeavingEndsAlone(src, s.(consumer := Leaving(ClosedByCaller)));
      StepThenEndsAlone(src, s, CallerCloses, ClosedByCaller);
    }
  }

  // ---- What a normal return tells ----

  /** Some run of the two threads ends in `s`. */
  ghost predicate Reachable(src: Source, s: State) {
    exists states: seq<State>, steps: seq<Step> :: IsRun(src, states, steps) && states[|steps|] == s
  }

  lemma StepReaches(src: Source, s: State, step: Step)
    requires Reachable(src, s) && After(src, s, step).Some?
    ensures Reachable(src, After(src, s, step).value)
  {
    var states: seq<State>, steps: seq<Step> :| IsRun(src, states, steps) && states[|steps|] == s;
    var states', steps' := states + [After(src, s, step).value], steps + [step];
    assert IsRun(src, states', steps') && states'[|steps'|] == After(src, s, step).value;
  }

  /** Both threads at rest after the first `n` events have been pulled and yielded. */
  function Rest(src: Source, n: nat): State
    requires n <= |src.events|
  {
    State(Pulling, CheckingCeiling, None, false, n, src.events[..n])
  }

  /** One event goes all the way from the stream to the caller. */
  lemma EventPasses(src: Source, n: nat)
    requires n < |src.events| && Reachable(src, Rest(src, n))
    ensures Reachable(src, Rest(src, n + 1))
  {
    var s, m := Rest(src, n), Event(src.events[n]);
    StepReaches(src, s, ReaderPulls);
    var pulled := s.(reader := Pulled(src.events[n]), pulled := n + 1);
    StepReaches(src, pulled, ReaderSeesStop);
    StepReaches(src, pulled.(reader := Publishing(m)), ReaderTests);
    StepReaches(src, pulled.(reader := PuttingNow(m)), ReaderPuts);
    var put := pulled.(reader := Pulling, queue := Some(m));
    StepReaches(src, put, CeilingLeft);
    StepReaches(src, put.(consumer := Getting), ConsumerGets);
    StepReaches(src, put.(consumer := Handling(m), queue := None), ConsumerHandles);
    var yielded := put.(consumer := Suspended, queue := None, yielded := src.events[..n] + [src.events[n]]);
    StepReaches(src, yielded, CallerResumes);
    assert src.events[..n + 1] == src.events[..n] + [src.events[n]];
  }

  lemma {:induction false} RestReachable(src: Source, n: nat)
    requires n <= |src.events|
    ensures Reachable(src, Rest(src, n))
  {
    if n == 0 {
      var states: seq<State>, steps: seq<Step> := [INITIAL], [];
      assert IsRun(src, states, steps) && states[|steps|] == Rest(src, 0);
    } else {
      RestReachable(src, n - 1);
      EventPasses(src, n - 1);
    }
  }

  lemma EndIsQueued(src: Source, s: State)
    requires src.ending != Raises && Reachable(src, s)
    requires s.reader == Pulling && s.queue == None && !s.stopped && s.pulled == |src.events|
    ensures Reachable(src, s.(reader := ReaderDone, queue := Some(End)))
  {
    StepReaches(src, s, ReaderPulls);
    StepReaches(src, s.(reader := Publishing(End)), ReaderTests);
    StepReaches(src, s.(reader := PuttingNow(End)), ReaderPuts);
  }

  lemma EndIsHandled(src: Source, s: State)
    requires Reachable(src, s) && s.consumer == CheckingCeiling && s.queue == Some(End)
    ensures Reachable(src, s.(consumer := ConsumerDone(ReturnedNormally), queue := None, stopped := true))
  {
    StepReaches(src, s, CeilingLeft);
    StepReaches(src, s.(consumer := Getting), ConsumerGets);
    StepReaches(src, s.(consumer := Handling(End), queue := None), ConsumerHandles);
    StepReaches(src, s.(consumer := Leaving(ReturnedNormally), queue := None), ConsumerStops);
  }

  /** The end message goes through, whether the stream was exhausted or broken off. */
  lemma EndPasses(src: Source)
    requires src.ending != Raises
    ensures Reachable(src, State(ReaderDone, ConsumerDone(ReturnedNormally), None, true, |src.events|, src.events))
  {
    var n := |src.events|;
    RestReachable(src, n);
    assert src.events[..n] == src.events;
    EndIsQueued(src, Rest(src, n));
    EndIsHandled(src, Rest(src, n).(reader := ReaderDone, queue := Some(End)));
  }

  /** The error message goes through after every event, and is raised again. */
  lemma FailurePasses(src: Source)
    requires src.ending == Raises
    ensures exists s :: Reachable(src, s) && s.consumer == ConsumerDone(RaisedStreamError)
  {
    var n := |src.events|;
    RestReachable(src, n);
    var s := Rest(src, n);
    StepReaches(src, s, ReaderPulls);
    StepReaches(src, s.(reader := Publishing(Failure)), ReaderTests);
    StepReaches(src, s.(reader := PuttingNow(Failure)), ReaderPuts);
    FailureIsHandled(src, s.(reader := Publishing(End), queue := Some(Failure)));
  }

  lemma FailureIsHandled(src: Source, s: State)
    requires Reachable(src, s) && s.consumer == CheckingCeiling && s.queue == Some(Failure)
    ensures Reachable(src, s.(consumer := ConsumerDone(RaisedStreamError), queue := None, stopped := true))
  {
    StepReaches(src, s, CeilingLeft);
    StepReaches(src, s.(consumer := Getting), ConsumerGets);
    StepReaches(src, s.(consumer := Handling(Failure), queue := None), ConsumerHandles);
    StepReaches(src, s.(consumer := Leaving(RaisedStreamError), queue := None), ConsumerStops);
  }

  /** A stream error can be raised again exactly when the stream raises one. */
  lemma StreamErrorIsRaisedIff(src: Source)
    ensures (exists s :: Reachable(src, s) && s.consumer == ConsumerDone(RaisedStreamError)) <==> src.ending == Raises
  {
    if src.ending == Raises {
      FailurePasses(src);
    }
    if s :| Reachable(src, s) && s.consumer == ConsumerDone(RaisedStreamError) {
      var states: seq<State>, steps: seq<Step> :| IsRun(src, states, steps) && states[|steps|] == s;
      YieldedInOrder(src, states, steps, |steps|);
    }
  }

  ghost predicate CanReturnNormally(src: Source) {
    exists s :: Reachable(src, s) && s.consumer == ConsumerDone(ReturnedNormally)
  }

  /** Whoever sees a normal return has seen the whole stream, to its proper end. */
  ghost predicate NormalReturnMeansExhausted(src: Source) {
    forall s :: Reachable(src, s) && s.consumer == ConsumerDone(ReturnedNormally)
      ==> src.ending == Exhausted && s.yielded == src.events
  }

  /**
   Some run returns normally exactly when the stream does not raise an `Exception`. So a normal
   return means that the stream was exhausted if and only if its iteration is not broken off by
   something other than an `Exception`: for every source that aborts, some run looks like its end.
   */
  lemma AbortLooksLikeTheEnd(src: Source)
    ensures CanReturnNormally(src) <==> src.ending != Raises
    ensures NormalReturnMeansExhausted(src) <==> src.ending != Aborts
  {
    if src.ending != Raises {
      EndPasses(src);
      assert CanReturnNormally(src);
    }
    forall s | Reachable(src, s) && s.consumer == ConsumerDone(ReturnedNormally)
      ensures src.ending != Raises && s.yielded == src.events
    {
      var states: seq<State>, steps: seq<Step> :| IsRun(src, states, steps) && states[|steps|] == s;
      YieldedInOrder(src, states, steps, |steps|);
    }
  }
}
