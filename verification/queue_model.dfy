/**
 The bounded producer/consumer queue as a labelled step system, for any number of
 producers and consumers and any capacity. Sequence numbers are C++ unsigned and wrap.
 A consumer's timed wait may return at any moment, so notifies need no step of their own.
 A producer tests the stop flag before it takes the mutex, so a push may follow the stop.
 */
module QueueModel {
  import opened UnsignedInt

  datatype WorkItem = WorkItem(producerId: nat, sequenceId: Unsigned)

  datatype Consumer =
    | LoopTop                  // about to read the stop flag
    | Testing                  // about to test the wait predicate
    | Waiting
    | Logging(item: WorkItem)
    | Exited

  datatype Pop = Pop(consumer: nat, item: WorkItem)

  datatype State = State(
    capacity: nat,
    stop: bool,
    queue: seq<WorkItem>,
    latest: Unsigned,
    consumers: seq<Consumer>,
    pushed: seq<nat>,          // the producer of each item accepted, in order
    popped: seq<Pop>)

  datatype Event =
    | Stop
    | Produce(p: nat)
    | ReadStop(c: nat)
    | Test(c: nat)
    | Return(c: nat, timedOut: bool)
    | Logged(c: nat)

  function Init(capacity: nat, consumers: nat): State
  {
    State(capacity, false, [], 0, seq(consumers, _ => LoopTop), [], [])
  }

  predicate Enabled(s: State, e: Event)
  {
    match e
    case Stop => true
    case Produce(_) => true
    case ReadStop(c) => c < |s.consumers| && s.consumers[c].LoopTop?
    case Test(c) => c < |s.consumers| && s.consumers[c].Testing?
    case Return(c, _) => c < |s.consumers| && s.consumers[c].Waiting?
    case Logged(c) => c < |s.consumers| && s.consumers[c].Logging?
  }

  /** The wait tests its predicate; a timed-out wait is over whatever the predicate says. */
  function AfterTest(s: State, c: nat, timedOut: bool): State
    requires c < |s.consumers|
  {
    if !timedOut && !s.stop && s.queue == [] then s.(consumers := s.consumers[c := Waiting])
    else if s.queue == [] then s.(consumers := s.consumers[c := if s.stop then Exited else LoopTop])
    else
      s.(queue := s.queue[1..],
         consumers := s.consumers[c := Logging(s.queue[0])],
         popped := s.popped + [Pop(c, s.queue[0])])
  }

  function Step(s: State, e: Event): State
    requires Enabled(s, e)
  {
    match e
    case Stop => s.(stop := true)
    case Produce(p) =>
      if |s.queue| >= s.capacity then s else
      s.(queue := s.queue + [WorkItem(p, s.latest)], latest := Wrap(s.latest + 1), pushed := s.pushed + [p])
    case ReadStop(c) => s.(consumers := s.consumers[c := if s.stop then Exited else Testing])
    case Test(c) => AfterTest(s, c, false)
    case Return(c, timedOut) => AfterTest(s, c, timedOut)
    case Logged(c) => s.(consumers := s.consumers[c := LoopTop])
  }

  ghost predicate Feasible(s: State, es: seq<Event>)
    decreases |es|
  {
    es == [] || (Enabled(s, es[0]) && Feasible(Step(s, es[0]), es[1..]))
  }

  ghost function Run(s: State, es: seq<Event>): State
    requires Feasible(s, es)
    decreases |es|
  {
    if es == [] then s else Run(Step(s, es[0]), es[1..])
  }
}
