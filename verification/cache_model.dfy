/**
 The expiring cache as a labelled step system: client calls, the passing of time,
 and the sweeper thread's waits and passes. The priority queue is kept in insertion
 order; its top is any entry with the least expiration, so nothing depends on how
 ties break.
 */
module CacheModel {
  import opened Common

  type Key = int
  type Value = int
  type Time = int

  datatype MapEntry = MapEntry(expiration: Time, generation: nat, value: Value)

  datatype HeapEntry = HeapEntry(expiration: Time, generation: nat, key: Key)

  /** The accepted writes, for the specification. */
  datatype Write =
    | Stored(key: Key, value: Value, at: Time, ttl: int)
    | Removed(key: Key)

  /** The sweeper thread. The deadline of a wait is fixed when the wait begins; None is the far end of time. */
  datatype Sweeper =
    | Arming                            // top of the loop
    | Asleep(deadline: Option<Time>)
    | Awake(deadline: Option<Time>)     // woken inside the wait, about to test the predicate
    | Sweeping                          // the wait is over and isStopping was false
    | Exited

  datatype State = State(
    clock: Time,
    generation: nat,
    lookup: map<Key, MapEntry>,
    heap: seq<HeapEntry>,
    isStopping: bool,
    sweeper: Sweeper,
    stops: nat,            // calls of stop that still owe notify_all
    writes: seq<Write>,
    passes: nat,           // sweeps so far
    pops: nat)             // heap entries popped so far

  datatype Event =
    | Tick(dt: nat)
    | Put(key: Key, value: Value, ttl: int, top: nat)
    | Remove(key: Key, top: nat)
    | SetStop
    | NotifyStop
    | Arm(top: nat)
    | Spurious
    | Recheck
    | Timeout
    | Sweep

  function Init(clock: Time): State
  {
    State(clock, 0, map[], [], false, Arming, 0, [], 0, 0)
  }

  predicate IsTop(heap: seq<HeapEntry>, i: nat)
  {
    i < |heap| && forall j :: 0 <= j < |heap| ==> heap[i].expiration <= heap[j].expiration
  }

  /** The top has expired, that is, some entry has. */
  predicate Due(heap: seq<HeapEntry>, now: Time)
  {
    exists i :: 0 <= i < |heap| && heap[i].expiration <= now
  }

  function Pushed(s: State, key: Key, ttl: int): seq<HeapEntry>
  {
    s.heap + [HeapEntry(s.clock + ttl, s.generation + 1, key)]
  }

  predicate Enabled(s: State, e: Event)
  {
    match e
    case Tick(_) => true
    case Put(key, _, ttl, top) => s.isStopping || IsTop(Pushed(s, key, ttl), top)
    case Remove(_, top) => s.isStopping || s.heap == [] || IsTop(s.heap, top)
    case SetStop => true
    case NotifyStop => s.stops > 0
    case Arm(top) => s.sweeper.Arming? && (s.heap == [] || IsTop(s.heap, top))
    case Spurious => s.sweeper.Asleep?
    case Recheck => s.sweeper.Awake?
    case Timeout => s.sweeper.Asleep? && s.sweeper.deadline.Some? && s.sweeper.deadline.value <= s.clock
    case Sweep => s.sweeper.Sweeping?
  }

  function Notified(w: Sweeper): Sweeper
  {
    if w.Asleep? then Awake(w.deadline) else w
  }

  /** The wait tests its predicate, and the loop tests isStopping when it is true. */
  function TestWait(s: State, deadline: Option<Time>): Sweeper
  {
    if s.isStopping then Exited
    else if Due(s.heap, s.clock) then Sweeping
    else Asleep(deadline)
  }

  /** The entries a sweep leaves: those that expire after now. */
  function Keep(heap: seq<HeapEntry>, now: Time): (r: seq<HeapEntry>)
    ensures |r| <= |heap|
  {
    if heap == [] then [] else
    var last := heap[|heap| - 1];
    Keep(heap[..|heap| - 1], now) + if last.expiration > now then [last] else []
  }

  function KeepMap(lookup: map<Key, MapEntry>, now: Time): map<Key, MapEntry>
  {
    map k | k in lookup && lookup[k].expiration > now :: lookup[k]
  }

  function Step(s: State, e: Event): State
    requires Enabled(s, e)
  {
    match e
    case Tick(dt) => s.(clock := s.clock + dt)
    case Put(key, value, ttl, top) =>
      if s.isStopping then s else
      var heap := Pushed(s, key, ttl);
      s.(generation := s.generation + 1,
         lookup := s.lookup[key := MapEntry(s.clock + ttl, s.generation + 1, value)],
         heap := heap,
         sweeper := if heap[top].key == key then Notified(s.sweeper) else s.sweeper,
         writes := s.writes + [Stored(key, value, s.clock, ttl)])
    case Remove(key, top) =>
      if s.isStopping then s else
      s.(lookup := s.lookup - {key},
         sweeper := if s.heap != [] && s.heap[top].key == key then Notified(s.sweeper) else s.sweeper,
         writes := s.writes + [Removed(key)])
    case SetStop => s.(isStopping := true, stops := s.stops + 1)
    case NotifyStop => s.(stops := s.stops - 1, sweeper := Notified(s.sweeper))
    case Arm(top) =>
      s.(sweeper := TestWait(s, if s.heap == [] then None else Some(s.heap[top].expiration)))
    case Spurious => s.(sweeper := Notified(s.sweeper))
    case Recheck => s.(sweeper := TestWait(s, s.sweeper.deadline))
    case Timeout => s.(sweeper := if s.isStopping then Exited else Sweeping)
    case Sweep =>
      var left := Keep(s.heap, s.clock);
      s.(heap := left,
         lookup := KeepMap(s.lookup, s.clock),
         sweeper := Arming,
         passes := s.passes + 1,
         pops := s.pops + (|s.heap| - |left|))
  }

  /** What get returns at the current time. */
  function Get(s: State, key: Key): Option<Value>
  {
    if s.isStopping then None
    else if key !in s.lookup then None
    else if s.lookup[key].expiration <= s.clock then None
    else Some(s.lookup[key].value)
  }

  /** The specification of get: the value of the last write to the key, if it is a put whose time has not come. */
  ghost function Live(writes: seq<Write>, key: Key, now: Time): Option<Value>
  {
    if writes == [] then None else
    var w := writes[|writes| - 1];
    if w.key != key then Live(writes[..|writes| - 1], key, now)
    else if w.Stored? && w.at + w.ttl > now then Some(w.value)
    else None
  }

  ghost predicate Feasible(s: State, es: seq<Event>)
    decreases |es|
  {
    es == [] || (Enabled(s, es[0]) && Feasible(Step(s, es[0]), es[1..]))
  }

  ghost function Run(s: State, es: seq<Event>): State
    requires Feasible(s, es)
    decreases |es|
  {
    if es == [] then s else Run(Step(s, es[0]), es[1..])
  }
}
