/**
 The metrics test as a labelled step system: any number of workers batch events and
 flush them into the shared aggregate under its mutex; a reporter copies the aggregate.
 A worker consolidates and clears its own batch before it takes the mutex, which no
 other thread can see, so a flush is one step. Creating an event is just as private, so
 it stands where the worker tests the flags before it.
 */
module MetricsModel {
  import opened Common
  import opened MetricsEvent

  const BATCH_SIZE: nat := 64

  datatype Worker =
    | Collecting(batch: seq<Event>)
    | Flushing(batch: seq<Event>, last: bool)
    | Exited
    | Failed(lost: seq<Event>)      // an exception escaped; its batch is gone

  datatype State = State(
    stop: bool,
    internalStop: bool,
    workers: seq<Worker>,
    shared: Option<Event>,
    generated: seq<Event>,          // every event created
    flushed: seq<Event>,            // the events of all flushes, in flush order
    lost: real,                     // the latency × count that flushes lost to counts of 2^32
    reports: seq<Option<Event>>)    // the copies the reporter took

  datatype Action =
    | Stop
    | Generate(w: nat, event: Event)
    | Quit(w: nat)
    | Flush(w: nat)
    | Fail(w: nat)
    | Report

  function Init(workers: nat): State
  {
    State(false, false, seq(workers, _ => Collecting([])), None, [], [], 0.0, [])
  }

  predicate Enabled(s: State, a: Action)
  {
    match a
    case Stop => true
    case Report => true
    case Generate(w, _) => w < |s.workers| && s.workers[w].Collecting? && !s.stop && !s.internalStop
    case Quit(w) => w < |s.workers| && s.workers[w].Collecting? && (s.stop || s.internalStop)
    case Flush(w) => w < |s.workers| && s.workers[w].Flushing?
    case Fail(w) => w < |s.workers| && (s.workers[w].Collecting? || s.workers[w].Flushing?)
  }

  /** Consolidating a batch: nothing for the empty batch. */
  ghost function Consolidated(batch: seq<Event>): Option<Event>
  {
    if batch == [] then None else Some(Folded(batch))
  }

  ghost function Merged(shared: Option<Event>, batch: seq<Event>): Option<Event>
  {
    match Consolidated(batch)
    case None => shared
    case Some(e) => if shared.None? then Some(e) else Some(Envelope(shared.value, e))
  }

  /** The weight that consolidating a batch and merging it lose. */
  ghost function MergeLost(shared: Option<Event>, batch: seq<Event>): real
  {
    if batch == [] then 0.0
    else FoldLost(batch) + if shared.None? then 0.0 else Lost(shared.value, Folded(batch))
  }

  ghost function Step(s: State, a: Action): State
    requires Enabled(s, a)
  {
    match a
    case Stop => s.(stop := true)
    case Report => s.(reports := s.reports + [s.shared])
    case Generate(w, event) =>
      var batch := s.workers[w].batch + [event];
      s.(workers := s.workers[w := if |batch| >= BATCH_SIZE then Flushing(batch, false) else Collecting(batch)],
         generated := s.generated + [event])
    case Quit(w) =>
      s.(workers := s.workers[w := Flushing(s.workers[w].batch, true)])
    case Flush(w) =>
      var Flushing(batch, last) := s.workers[w];
      s.(workers := s.workers[w := if last then Exited else Collecting([])],
         shared := Merged(s.shared, batch),
         flushed := s.flushed + batch,
         lost := s.lost + MergeLost(s.shared, batch))
    case Fail(w) =>
      s.(workers := s.workers[w := Failed(s.workers[w].batch)], internalStop := true)
  }

  ghost predicate Feasible(s: State, acts: seq<Action>)
    decreases |acts|
  {
    acts == [] || (Enabled(s, acts[0]) && Feasible(Step(s, acts[0]), acts[1..]))
  }

  ghost function Run(s: State, acts: seq<Action>): State
    requires Feasible(s, acts)
    decreases |acts|
  {
    if acts == [] then s else Run(Step(s, acts[0]), acts[1..])
  }
}
