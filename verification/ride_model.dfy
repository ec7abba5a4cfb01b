/**
 The ride state manager as a labelled step system: callers that change the state or
 the observer list, the dispatcher thread, the death of observed objects, and the
 destructor. Callbacks run without a lock, so whatever a callback does to the manager
 is just another caller's event between two dispatches.
 */
module RideModel {
  datatype Ride = Idle | Requested | PassengerBoarding | InProgress | Completed

  datatype Note = Note(previous: Ride, current: Ride)

  /** A registration. Objects are identities, never reused. */
  datatype Pair = Pair(dispatcher: nat, observer: nat)

  /** The objects whose last owner is gone; their weak pointers no longer lock. */
  datatype Dead = Dead(dispatchers: set<nat>, observers: set<nat>)

  datatype Dispatcher =
    | NotStarted
    | LoopTop                // about to read the stop flag
    | Testing                // about to test the wait predicate under the mutex
    | Sleeping
    | Popped(n: nat, note: Note)     // holds the n-th notification
    | Dispatching(n: nat, note: Note, healthy: seq<Pair>, next: nat)
    | Exited

  datatype Destructor = Alive | OwesNotify | Joining | Joined

  /** The n-th notification handed to a pair. */
  datatype Call = Call(n: nat, pair: Pair, note: Note)

  datatype State = State(
    ride: Ride,
    queue: seq<Note>,
    isShuttingDown: bool,
    stop: bool,
    observers: seq<Pair>,
    dead: Dead,
    dispatcher: Dispatcher,
    destructor: Destructor,
    accepted: seq<Note>,          // every accepted transition
    taken: nat,                   // notifications popped
    snaps: seq<seq<Pair>>,        // the healthy pairs each notification was dispatched to
    calls: seq<Call>)             // dispatch calls made

  datatype Event =
    | Start
    | RaiseStop
    | ReadStop
    | TestQueue
    | Spurious
    | Snapshot
    | Dispatch(throws: bool)
    | EndDispatch
    | TryChange(next: Ride)
    | Subscribe(pair: Pair)
    | Unsubscribe(observer: nat)
    | DispatcherDies(d: nat)
    | ObserverDies(o: nat)
    | BeginDestroy
    | NotifyDestroy
    | Join

  const MAX_PENDING: nat := 1024

  function Init(): State
  {
    State(Idle, [], false, false, [], Dead({}, {}), NotStarted, Alive, [], 0, [], [])
  }

  predicate IsValidTransition(current: Ride, next: Ride)
  {
    match next
    case Idle => current != Idle
    case Requested => current == Idle
    case PassengerBoarding => current == Requested
    case InProgress => current == PassengerBoarding
    case Completed => current == InProgress
  }

  predicate Accepts(s: State, next: Ride)
  {
    IsValidTransition(s.ride, next) && |s.queue| < MAX_PENDING && !s.isShuttingDown
  }

  predicate Living(p: Pair, dead: Dead)
  {
    p.dispatcher !in dead.dispatchers && p.observer !in dead.observers
  }

  /** The registrations whose two objects are alive, in order. */
  function LivingOnly(ps: seq<Pair>, dead: Dead): (r: seq<Pair>)
    ensures |r| <= |ps|
  {
    if ps == [] then [] else
    var last := ps[|ps| - 1];
    LivingOnly(ps[..|ps| - 1], dead) + if Living(last, dead) then [last] else []
  }

  /** The registrations of living observers other than o, in order. */
  function WithoutObserver(ps: seq<Pair>, dead: Dead, o: nat): seq<Pair>
  {
    if ps == [] then [] else
    var last := ps[|ps| - 1];
    WithoutObserver(ps[..|ps| - 1], dead, o)
    + if last.observer !in dead.observers && last.observer != o then [last] else []
  }

  function IndexOf(ps: seq<Pair>, p: Pair): (i: nat)
    ensures i <= |ps| && p !in ps[..i]
    ensures i < |ps| ==> ps[i] == p
  {
    if ps == [] || ps[0] == p then 0 else
    var i := 1 + IndexOf(ps[1..], p);
    assert ps[..i] == [ps[0]] + ps[1..][..i - 1];
    i
  }

  /** Subscribe cleans up to the first duplicate and stops there, or cleans everything and appends. */
  function Subscribed(ps: seq<Pair>, dead: Dead, p: Pair): seq<Pair>
  {
    var i := IndexOf(ps, p);
    LivingOnly(ps[..i], dead) + if i < |ps| then ps[i..] else [p]
  }

  /** While a snapshot is being dispatched its objects are kept alive. */
  predicate Held(d: Dispatcher, p: Pair)
  {
    d.Dispatching? && p in d.healthy
  }

  ghost predicate Enabled(s: State, e: Event)
  {
    match e
    case Start => s.dispatcher.NotStarted? && s.destructor.Alive?
    case RaiseStop => true
    case ReadStop => s.dispatcher.LoopTop?
    case TestQueue => s.dispatcher.Testing?
    case Spurious => s.dispatcher.Sleeping?
    case Snapshot => s.dispatcher.Popped?
    case Dispatch(_) => s.dispatcher.Dispatching? && s.dispatcher.next < |s.dispatcher.healthy|
    case EndDispatch => s.dispatcher.Dispatching? && s.dispatcher.next >= |s.dispatcher.healthy|
    case TryChange(_) => true
    case Subscribe(pair) => Living(pair, s.dead)
    case Unsubscribe(o) => o !in s.dead.observers
    case DispatcherDies(d) => forall p :: Held(s.dispatcher, p) ==> p.dispatcher != d
    case ObserverDies(o) => forall p :: Held(s.dispatcher, p) ==> p.observer != o
    case BeginDestroy => s.destructor.Alive?
    case NotifyDestroy => s.destructor.OwesNotify?
    case Join => s.destructor.Joining? && (s.dispatcher.Exited? || s.dispatcher.NotStarted?)
  }

  function Notified(d: Dispatcher): Dispatcher
  {
    if d.Sleeping? then Testing else d
  }

  function Step(s: State, e: Event): State
    requires Enabled(s, e)
  {
    match e
    case Start => s.(dispatcher := LoopTop)
    case RaiseStop => s.(stop := true)
    case ReadStop => s.(dispatcher := if s.stop then Exited else Testing)
    case TestQueue =>
      if !(s.isShuttingDown || s.queue != []) then s.(dispatcher := Sleeping)
      else if s.isShuttingDown && s.queue == [] then s.(dispatcher := Exited)
      else if s.queue == [] then s.(dispatcher := LoopTop)
      else s.(dispatcher := Popped(s.taken, s.queue[0]), queue := s.queue[1..], taken := s.taken + 1)
    case Spurious => s.(dispatcher := Testing)
    case Snapshot =>
      var healthy := LivingOnly(s.observers, s.dead);
      s.(dispatcher := Dispatching(s.dispatcher.n, s.dispatcher.note, healthy, 0),
         observers := healthy,
         snaps := s.snaps + [healthy])
    case Dispatch(_) =>
      var Dispatching(n, note, healthy, next) := s.dispatcher;
      s.(dispatcher := Dispatching(n, note, healthy, next + 1),
         calls := s.calls + [Call(n, healthy[next], note)])
    case EndDispatch => s.(dispatcher := LoopTop)
    case TryChange(next) =>
      if !Accepts(s, next) then s else
      s.(ride := next,
         queue := s.queue + [Note(s.ride, next)],
         dispatcher := Notified(s.dispatcher),
         accepted := s.accepted + [Note(s.ride, next)])
    case Subscribe(pair) =>
      if s.isShuttingDown then s else s.(observers := Subscribed(s.observers, s.dead, pair))
    case Unsubscribe(o) =>
      if s.isShuttingDown then s else s.(observers := WithoutObserver(s.observers, s.dead, o))
    case DispatcherDies(d) => s.(dead := s.dead.(dispatchers := s.dead.dispatchers + {d}))
    case ObserverDies(o) => s.(dead := s.dead.(observers := s.dead.observers + {o}))
    case BeginDestroy => s.(isShuttingDown := true, destructor := OwesNotify)
    case NotifyDestroy => s.(destructor := Joining, dispatcher := Notified(s.dispatcher))
    case Join => s.(destructor := Joined)
  }

  ghost predicate Feasible(s: State, es: seq<Event>)
    decreases |es|
  {
    es == [] || (Enabled(s, es[0]) && Feasible(Step(s, es[0]), es[1..]))
  }

  ghost function Run(s: State, es: seq<Event>): State
    requires Feasible(s, es)
    decreases |es|
  {
    if es == [] then s else Run(Step(s, es[0]), es[1..])
  }
}
