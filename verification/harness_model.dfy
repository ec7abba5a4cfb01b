/**
 The main program around the pool: announce and submit the tests, heartbeat, raise
 stop, wait, clear the tests, destroy the pool. Main is the pool's only client; the
 tasks it submits end every test's start, thrown or not, and then decrement the
 active count.
 */
module HarnessModel {
  import opened Common
  import P = PoolModel

  datatype Main =
    | Announcing(i: nat)   // about to count test i, or to leave the loop
    | Pushing(i: nat)
    | Notifying(i: nat)
    | Heartbeat
    | RaisingStop
    | CallingWait
    | Waiting
    | Clearing             // wait returned, tests.clear() is next
    | Destroying           // end of the block, the pool's destructor runs
    | Escaped              // wait rethrew

  datatype State = State(
    pool: P.State,
    tests: nat,
    active: int,              // activeTestsCount
    stop: bool,
    main: Main,
    ended: set<nat>,          // tests whose start has returned or thrown
    decremented: set<nat>)    // task bodies that have done their fetch_sub

  datatype Event =
    | Announce
    | LeaveLoop
    | Push
    | Notify(woken: Option<nat>)
    | SeeZero
    | TimeUp
    | RaiseStop
    | CallWait
    | TestWait
    | WakeSpuriously
    | ClearTests
    | Destroy(d: P.Event)
    | StartEnds(w: nat)
    | Decrement(w: nat)
    | Worker(p: P.Event)

  function Init(tests: nat, maxThreads: nat): State
  {
    State(P.Init(maxThreads, 1), tests, 0, false, Announcing(0), {}, {})
  }

  /** The pool event that an event is, or is part of. */
  function PoolPart(s: State, e: Event): Option<P.Event>
  {
    match e
    case Push => Some(P.SubmitPush(0, if s.main.Pushing? then s.main.i else 0))
    case Notify(woken) => Some(P.SubmitNotify(0, woken))
    case CallWait => Some(P.WaitBegin(0, false))
    case TestWait => Some(P.WaitCheck(0))
    case WakeSpuriously => Some(P.DoneSpurious(0))
    case Destroy(d) => Some(d)
    case Worker(p) => Some(p)
    case _ => None
  }

  predicate DestructorEvent(d: P.Event)
  {
    d == P.WaitBegin(0, true) || d == P.WaitCheck(0) || d == P.DoneSpurious(0)
    || d == P.SetStopping(0) || d == P.NotifyAll(0) || d == P.Join(0)
  }

  predicate OnTask(s: State, w: nat)
  {
    w < |s.pool.workers| && s.pool.workers[w].Running?
  }

  /** Workers follow the pool; a body returns only after its decrement, and never throws. */
  predicate WorkerFollowsPool(s: State, p: P.Event)
  {
    p.TakeTask? || p.WorkSpurious? || p.Erase?
    || (p.BodyReturns? && OnTask(s, p.w) && s.pool.workers[p.w].task.id in s.decremented)
  }

  predicate Guard(s: State, e: Event)
  {
    match e
    case Announce => s.main.Announcing? && s.main.i < s.tests
    case LeaveLoop => s.main.Announcing? && s.main.i == s.tests
    case Push => s.main.Pushing?
    case Notify(_) => s.main.Notifying?
    case SeeZero => s.main.Heartbeat? && s.active == 0
    case TimeUp => s.main.Heartbeat?
    case RaiseStop => s.main.RaisingStop?
    case CallWait => s.main.CallingWait?
    case TestWait => s.main.Waiting?
    case WakeSpuriously => s.main.Waiting?
    case ClearTests => s.main.Clearing?
    case Destroy(d) => s.main.Destroying? && DestructorEvent(d)
    case StartEnds(w) => OnTask(s, w) && s.pool.workers[w].task.id !in s.ended
    case Decrement(w) =>
      OnTask(s, w) && s.pool.workers[w].task.id in s.ended && s.pool.workers[w].task.id !in s.decremented
    case Worker(p) => WorkerFollowsPool(s, p)
  }

  predicate Enabled(s: State, e: Event)
  {
    Guard(s, e) && (PoolPart(s, e).Some? ==> P.Enabled(s.pool, PoolPart(s, e).value))
  }

  function NextMain(s: State, e: Event): Main
    requires Guard(s, e)
  {
    match e
    case Announce => Pushing(s.main.i)
    case LeaveLoop => Heartbeat
    case Push => Notifying(s.main.i)
    case Notify(_) => Announcing(s.main.i + 1)
    case SeeZero => RaisingStop
    case TimeUp => RaisingStop
    case RaiseStop => CallingWait
    case CallWait => Waiting
    case TestWait =>
      (match P.Observe(s.pool)
       case Blocks => Waiting
       case Returns => Clearing
       case Rethrows(_) => Escaped)
    case ClearTests => Destroying
    case _ => s.main
  }

  function Step(s: State, e: Event): State
    requires Enabled(s, e)
  {
    State(
      if PoolPart(s, e).Some? then P.Step(s.pool, PoolPart(s, e).value) else s.pool,
      s.tests,
      if e.Announce? then s.active + 1 else if e.Decrement? then s.active - 1 else s.active,
      s.stop || e.RaiseStop?,
      NextMain(s, e),
      if e.StartEnds? then s.ended + {s.pool.workers[e.w].task.id} else s.ended,
      if e.Decrement? then s.decremented + {s.pool.workers[e.w].task.id} else s.decremented)
  }

  ghost predicate Feasible(s: State, es: seq<Event>)
    decreases |es|
  {
    es == [] || (Enabled(s, es[0]) && Feasible(Step(s, es[0]), es[1..]))
  }

  ghost function Run(s: State, es: seq<Event>): State
    requires Feasible(s, es)
    decreases |es|
  {
    if es == [] then s else Run(Step(s, es[0]), es[1..])
  }
}
