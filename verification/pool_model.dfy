/**
 The bounded-mode thread pool as a labelled step system.

 One event is one critical section of the pool's mutex, one condition-variable
 action, or the end of one task body. The order of events is arbitrary, so a
 statement about every feasible sequence of events is a statement about every
 schedule. Condition variables may wake a thread for no reason (`WorkSpurious`,
 `DoneSpurious`).
 */
module PoolModel {
  import opened Common

  /** What a task does is decided by the schedule; a job only has an identity. */
  type Job = nat

  type Exn = nat

  datatype QueuedTask = QueuedTask(id: nat, job: Job)

  /** Where a worker thread stands in its loop. */
  datatype Worker =
    | Ready                                  // awake, about to take the mutex and test the wait predicate
    | Asleep                                 // blocked on workCondition
    | Running(task: QueuedTask)              // inside the task's function
    | Recording(task: QueuedTask, exn: Exn)  // in the catch block, before the mutex
    | Erasing(task: QueuedTask)              // past the body, about to erase the id
    | Exited

  /** Where a thread that calls the pool stands; `destroying` marks a wait issued by the destructor. */
  datatype Client =
    | Idle
    | Notifying                     // submit has pushed and owes notify_one
    | Checking(destroying: bool)    // wait, about to test its predicate
    | Blocked(destroying: bool)     // wait, asleep on doneCondition
    | Stopping                      // destructor, wait returned normally
    | NotifyingAll                  // destructor, stopping set, owes notify_all
    | Joining
    | Joined
    | Terminated                    // the destructor's wait rethrew

  datatype Thrown = Thrown(id: nat, exn: Exn)

  /** What has happened so far. No step reads it. */
  datatype History = History(
    submitted: seq<Job>,              // submitted[i] is the job given id i
    started: seq<QueuedTask>,         // tasks in the order workers took them
    ran: multiset<nat>,               // one occurrence of an id for each completed body
    outcome: map<nat, Option<Exn>>,   // how the body of each id ended
    recorded: seq<Thrown>,            // exceptions that reached the catch block's critical section
    rethrown: nat,                    // how many of those precede the last rethrow
    completed: set<nat>)              // ids erased again after their body

  datatype State = State(
    queue: seq<QueuedTask>,
    inProgress: set<nat>,
    nextId: nat,
    stopping: bool,
    firstException: Option<Exn>,
    workers: seq<Worker>,
    clients: seq<Client>,
    h: History)

  datatype Event =
    | SubmitPush(c: nat, job: Job)
    | SubmitNotify(c: nat, woken: Option<nat>)
    | WaitBegin(c: nat, destroying: bool)
    | WaitCheck(c: nat)
    | DoneSpurious(c: nat)
    | SetStopping(c: nat)
    | NotifyAll(c: nat)
    | Join(c: nat)
    | WorkSpurious(w: nat)
    | TakeTask(w: nat)
    | BodyReturns(w: nat)
    | BodyThrows(w: nat, exn: Exn)
    | Record(w: nat)
    | Erase(w: nat)

  function Init(workers: nat, clients: nat): State
  {
    State([], {}, 0, false, None,
          seq(workers, _ => Ready), seq(clients, _ => Idle),
          History([], [], multiset{}, map[], [], 0, {}))
  }

  /** The predicate of `wait`. */
  predicate Quiescent(s: State)
  {
    s.queue == [] && s.inProgress == {}
  }

  predicate InTask(w: Worker)
  {
    w.Running? || w.Recording? || w.Erasing?
  }

  predicate NobodyAsleep(ws: seq<Worker>)
  {
    forall i :: 0 <= i < |ws| ==> !ws[i].Asleep?
  }

  predicate AllExited(ws: seq<Worker>)
  {
    forall i :: 0 <= i < |ws| ==> ws[i].Exited?
  }

  /** notify_one wakes some sleeper, whichever the library picks, and nobody only when nobody sleeps. */
  predicate MayWake(ws: seq<Worker>, woken: Option<nat>)
  {
    match woken
    case Some(w) => w < |ws| && ws[w].Asleep?
    case None => NobodyAsleep(ws)
  }

  function WakeAllWorkers(ws: seq<Worker>): seq<Worker>
  {
    seq(|ws|, i requires 0 <= i < |ws| => if ws[i].Asleep? then Ready else ws[i])
  }

  function WakeAllWaiters(cs: seq<Client>): seq<Client>
  {
    seq(|cs|, i requires 0 <= i < |cs| => if cs[i].Blocked? then Checking(cs[i].destroying) else cs[i])
  }

  predicate ClientAt(s: State, c: nat)
  {
    c < |s.clients|
  }

  predicate WorkerAt(s: State, w: nat)
  {
    w < |s.workers|
  }

  /**
   When an event may happen. The only rule on callers is the C++ one: nobody
   submits to a pool whose destructor has gone past its wait.
   */
  predicate Enabled(s: State, e: Event)
  {
    match e
    case SubmitPush(c, _) => ClientAt(s, c) && s.clients[c].Idle? && !s.stopping
    case SubmitNotify(c, woken) => ClientAt(s, c) && s.clients[c].Notifying? && MayWake(s.workers, woken)
    case WaitBegin(c, _) => ClientAt(s, c) && s.clients[c].Idle?
    case WaitCheck(c) => ClientAt(s, c) && s.clients[c].Checking?
    case DoneSpurious(c) => ClientAt(s, c) && s.clients[c].Blocked?
    case SetStopping(c) => ClientAt(s, c) && s.clients[c].Stopping?
    case NotifyAll(c) => ClientAt(s, c) && s.clients[c].NotifyingAll?
    case Join(c) => ClientAt(s, c) && s.clients[c].Joining? && AllExited(s.workers)
    case WorkSpurious(w) => WorkerAt(s, w) && s.workers[w].Asleep?
    case TakeTask(w) => WorkerAt(s, w) && s.workers[w].Ready?
    case BodyReturns(w) => WorkerAt(s, w) && s.workers[w].Running?
    case BodyThrows(w, _) => WorkerAt(s, w) && s.workers[w].Running?
    case Record(w) => WorkerAt(s, w) && s.workers[w].Recording?
    case Erase(w) => WorkerAt(s, w) && s.workers[w].Erasing?
  }

  function Step(s: State, e: Event): State
    requires Enabled(s, e)
  {
    match e
    case SubmitPush(c, job) =>
      s.(queue := s.queue + [QueuedTask(s.nextId, job)],
         nextId := s.nextId + 1,
         clients := s.clients[c := Notifying],
         h := s.h.(submitted := s.h.submitted + [job]))
    case SubmitNotify(c, woken) =>
      s.(clients := s.clients[c := Idle],
         workers := if woken.Some? then s.workers[woken.value := Ready] else s.workers)
    case WaitBegin(c, destroying) =>
      s.(clients := s.clients[c := Checking(destroying)])
    case WaitCheck(c) =>
      StepWait(s, c)
    case DoneSpurious(c) =>
      s.(clients := s.clients[c := Checking(s.clients[c].destroying)])
    case SetStopping(c) =>
      s.(stopping := true, clients := s.clients[c := NotifyingAll])
    case NotifyAll(c) =>
      s.(clients := s.clients[c := Joining], workers := WakeAllWorkers(s.workers))
    case Join(c) =>
      s.(clients := s.clients[c := Joined])
    case WorkSpurious(w) =>
      s.(workers := s.workers[w := Ready])
    case TakeTask(w) =>
      StepTake(s, w)
    case BodyReturns(w) =>
      var t := s.workers[w].task;
      s.(workers := s.workers[w := Erasing(t)],
         h := s.h.(ran := s.h.ran + multiset{t.id}, outcome := s.h.outcome[t.id := None]))
    case BodyThrows(w, exn) =>
      var t := s.workers[w].task;
      s.(workers := s.workers[w := Recording(t, exn)],
         h := s.h.(ran := s.h.ran + multiset{t.id}, outcome := s.h.outcome[t.id := Some(exn)]))
    case Record(w) =>
      var Recording(t, exn) := s.workers[w];
      s.(workers := s.workers[w := Erasing(t)],
         firstException := if s.firstException.None? then Some(exn) else s.firstException,
         h := s.h.(recorded := s.h.recorded + [Thrown(t.id, exn)]))
    case Erase(w) =>
      StepErase(s, w)
  }

  /** What a thread observes when it tests the predicate of `wait`. */
  datatype WaitOutcome = Blocks | Returns | Rethrows(exn: Exn)

  function Observe(s: State): WaitOutcome
  {
    if !Quiescent(s) then Blocks
    else if s.firstException.Some? then Rethrows(s.firstException.value)
    else Returns
  }

  function StepWait(s: State, c: nat): State
    requires ClientAt(s, c) && s.clients[c].Checking?
  {
    var destroying := s.clients[c].destroying;
    match Observe(s)
    case Blocks => s.(clients := s.clients[c := Blocked(destroying)])
    case Returns => s.(clients := s.clients[c := if destroying then Stopping else Idle])
    case Rethrows(_) =>
      s.(clients := s.clients[c := if destroying then Terminated else Idle],
         firstException := None,
         h := s.h.(rethrown := |s.h.recorded|))
  }

  function StepTake(s: State, w: nat): State
    requires WorkerAt(s, w)
  {
    if !s.stopping && s.queue == [] then
      s.(workers := s.workers[w := Asleep])
    else if s.stopping && s.queue == [] then
      s.(workers := s.workers[w := Exited])
    else
      var t := s.queue[0];
      s.(queue := s.queue[1..],
         inProgress := s.inProgress + {t.id},
         workers := s.workers[w := Running(t)],
         h := s.h.(started := s.h.started + [t]))
  }

  function StepErase(s: State, w: nat): State
    requires WorkerAt(s, w) && s.workers[w].Erasing?
  {
    var id := s.workers[w].task.id;
    var left := s.inProgress - {id};
    s.(inProgress := left,
       workers := s.workers[w := Ready],
       clients := if s.queue == [] && left == {} then WakeAllWaiters(s.clients) else s.clients,
       h := s.h.(completed := s.h.completed + {id}))
  }

  // ----- runs -----

  /** The events can happen one after the other, starting in s. */
  ghost predicate Feasible(s: State, es: seq<Event>)
    decreases |es|
  {
    es == [] || (Enabled(s, es[0]) && Feasible(Step(s, es[0]), es[1..]))
  }

  ghost function Run(s: State, es: seq<Event>): State
    requires Feasible(s, es)
    decreases |es|
  {
    if es == [] then s else Run(Step(s, es[0]), es[1..])
  }
}
