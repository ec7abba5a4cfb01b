/**
 What every step of the pool keeps, and what follows for whole runs: exactly-once
 FIFO execution, no lost wake-up on either condition variable, the exact meaning
 of `wait`, draining with an explicit measure, and shutdown.
 */
module PoolProofs {
  import opened Common
  import opened PoolModel

  // ----- the invariant, one aspect per predicate -----

  /** Ids are handed out consecutively; taken tasks followed by queued tasks are the submissions in order. */
  ghost predicate Fifo(s: State)
  {
    && s.nextId == |s.h.submitted| == |s.h.started| + |s.queue|
    && (forall i :: 0 <= i < |s.h.started| ==> s.h.started[i] == QueuedTask(i, s.h.submitted[i]))
    && (forall i :: 0 <= i < |s.queue| ==>
          s.queue[i] == QueuedTask(|s.h.started| + i, s.h.submitted[|s.h.started| + i]))
  }

  ghost function TaskIds(ws: seq<Worker>): set<nat>
  {
    set i | 0 <= i < |ws| && InTask(ws[i]) :: ws[i].task.id
  }

  /** A worker's task is the one that was taken under its id, and no two workers share an id. */
  ghost predicate OwnTasks(s: State)
  {
    && (forall i :: 0 <= i < |s.workers| && InTask(s.workers[i]) ==>
          && s.workers[i].task.id < |s.h.started|
          && s.workers[i].task == s.h.started[s.workers[i].task.id]
          && s.workers[i].task.id !in s.h.completed)
    && (forall i, j :: 0 <= i < j < |s.workers| && InTask(s.workers[i]) && InTask(s.workers[j]) ==>
          s.workers[i].task.id != s.workers[j].task.id)
  }

  /** Taken ids split into those held by workers, which are the in-progress set, and the completed ones. */
  ghost predicate Split(s: State)
  {
    && s.inProgress == TaskIds(s.workers)
    && s.inProgress !! s.h.completed
    && s.inProgress + s.h.completed == Below(|s.h.started|)
  }

  /** A body has run once iff its worker is past it or its id has been erased; otherwise it has not run. */
  ghost predicate RanOnce(s: State)
  {
    && (forall id :: id in s.h.completed ==> s.h.ran[id] == 1 && id in s.h.outcome)
    && (forall id: nat :: id >= |s.h.started| ==> s.h.ran[id] == 0)
    && (forall i :: 0 <= i < |s.workers| && InTask(s.workers[i]) ==>
          var w := s.workers[i];
          s.h.ran[w.task.id] == (if w.Running? then 0 else 1) && (!w.Running? ==> w.task.id in s.h.outcome))
  }

  ghost predicate HasRecorded(h: History, id: nat)
    requires id in h.outcome
  {
    h.outcome[id].Some? ==> Thrown(id, h.outcome[id].value) in h.recorded
  }

  /** Every exception is recorded before its id is erased, once; the pool keeps the first since the last rethrow. */
  ghost predicate Exceptions(s: State)
  {
    && (forall r :: r in s.h.recorded ==>
          r.id in s.h.outcome && s.h.outcome[r.id] == Some(r.exn) && r.id < |s.h.started|)
    && (forall i, j :: 0 <= i < j < |s.h.recorded| ==> s.h.recorded[i].id != s.h.recorded[j].id)
    && (forall id :: id in s.h.completed ==> id in s.h.outcome && HasRecorded(s.h, id))
    && (forall i :: 0 <= i < |s.workers| && InTask(s.workers[i]) ==> WorkerException(s, s.workers[i]))
    && s.h.rethrown <= |s.h.recorded|
    && s.firstException ==
       (if s.h.rethrown < |s.h.recorded| then Some(s.h.recorded[s.h.rethrown].exn) else None)
  }

  ghost predicate WorkerException(s: State, w: Worker)
    requires InTask(w)
  {
    match w
    case Running(t) => forall r :: r in s.h.recorded ==> r.id != t.id
    case Recording(t, exn) =>
      && t.id in s.h.outcome && s.h.outcome[t.id] == Some(exn)
      && forall r :: r in s.h.recorded ==> r.id != t.id
    case Erasing(t) => t.id in s.h.outcome && HasRecorded(s.h, t.id)
  }

  ghost function IsReady(w: Worker): nat
  {
    if w.Ready? then 1 else 0
  }

  ghost function OwesNotify(c: Client): nat
  {
    if c.Notifying? then 1 else 0
  }

  /** Work conservation: a worker sleeps only if every queued task has a waking worker or an owed notify. */
  ghost predicate NoLostWakeup(s: State)
  {
    NobodyAsleep(s.workers) || |s.queue| <= Total(s.workers, IsReady) + Total(s.clients, OwesNotify)
  }

  /** A thread asleep in `wait` has something to wait for. */
  ghost predicate NoLostCompletion(s: State)
  {
    forall c :: 0 <= c < |s.clients| && s.clients[c].Blocked? ==> !Quiescent(s)
  }

  /** A worker has exited only after stopping was set, with nothing queued then or since. */
  ghost predicate ExitedDrained(s: State)
  {
    forall w :: 0 <= w < |s.workers| && s.workers[w].Exited? ==> s.stopping && s.queue == []
  }

  ghost predicate PastBroadcast(c: Client)
  {
    c.Joining? || c.Joined?
  }

  /** Past the broadcast of the destructor nobody sleeps; past its join everybody has exited. */
  ghost predicate BroadcastHeard(s: State)
  {
    && (forall c :: 0 <= c < |s.clients| && s.clients[c].NotifyingAll? ==> s.stopping)
    && (forall c :: 0 <= c < |s.clients| && PastBroadcast(s.clients[c]) ==> s.stopping && NobodyAsleep(s.workers))
    && (forall c :: 0 <= c < |s.clients| && s.clients[c].Joined? ==> AllExited(s.workers))
  }

  ghost predicate Inv(s: State)
  {
    && Fifo(s) && OwnTasks(s) && Split(s) && RanOnce(s) && Exceptions(s)
    && NoLostWakeup(s) && NoLostCompletion(s)
    && ExitedDrained(s) && BroadcastHeard(s)
  }

  // ----- preservation -----

  lemma FifoPush(s: State, c: nat, job: Job)
    requires Fifo(s) && Enabled(s, SubmitPush(c, job))
    ensures Fifo(Step(s, SubmitPush(c, job)))
  {
  }

  lemma FifoTake(s: State, w: nat)
    requires Fifo(s) && Enabled(s, TakeTask(w))
    ensures Fifo(StepTake(s, w))
  {
  }

  lemma FifoSame(s: State, s': State)
    requires Fifo(s) && s'.queue == s.queue && s'.nextId == s.nextId
    requires s'.h.submitted == s.h.submitted && s'.h.started == s.h.started
    ensures Fifo(s')
  {
  }

  lemma FifoStep(s: State, e: Event)
    requires Fifo(s) && Enabled(s, e)
    ensures Fifo(Step(s, e))
  {
    match e
    case SubmitPush(c, job) => FifoPush(s, c, job);
    case TakeTask(w) => FifoTake(s, w);
    case _ =>
      hide Fifo;
      FifoSame(s, Step(s, e));
  }

  lemma TaskIdsTake(ws: seq<Worker>, w: nat, t: QueuedTask)
    requires w < |ws| && !InTask(ws[w])
    ensures TaskIds(ws[w := Running(t)]) == TaskIds(ws) + {t.id}
  {
    var after := ws[w := Running(t)];
    forall id | id in TaskIds(ws) + {t.id} ensures id in TaskIds(after) {
      if id == t.id {
        assert InTask(after[w]);
      } else {
        var i :| 0 <= i < |ws| && InTask(ws[i]) && ws[i].task.id == id;
        assert after[i] == ws[i];
      }
    }
  }

  lemma TaskIdsErase(ws: seq<Worker>, w: nat)
    requires w < |ws| && InTask(ws[w])
    requires forall i :: 0 <= i < |ws| && i != w && InTask(ws[i]) ==> ws[i].task.id != ws[w].task.id
    ensures TaskIds(ws[w := Ready]) == TaskIds(ws) - {ws[w].task.id}
  {
    var after := ws[w := Ready];
    forall id | id in TaskIds(ws) - {ws[w].task.id} ensures id in TaskIds(after) {
      var i :| 0 <= i < |ws| && InTask(ws[i]) && ws[i].task.id == id;
      assert after[i] == ws[i];
    }
  }

  /** Same tasks in the same hands. */
  ghost predicate SameTasks(ws: seq<Worker>, vs: seq<Worker>)
  {
    && |ws| == |vs|
    && (forall i :: 0 <= i < |ws| ==> InTask(ws[i]) == InTask(vs[i]) && (InTask(ws[i]) ==> ws[i].task == vs[i].task))
  }

  lemma TaskIdsSame(ws: seq<Worker>, vs: seq<Worker>)
    requires SameTasks(ws, vs)
    ensures TaskIds(ws) <= TaskIds(vs)
  {
    forall id | id in TaskIds(ws) ensures id in TaskIds(vs) {
      var i :| 0 <= i < |ws| && InTask(ws[i]) && ws[i].task.id == id;
      assert vs[i].task.id == id;
    }
  }

  lemma OwnTasksTake(s: State, w: nat)
    requires Fifo(s) && OwnTasks(s) && Enabled(s, TakeTask(w))
    requires |s.h.started| !in s.h.completed
    ensures OwnTasks(StepTake(s, w))
  {
  }

  lemma OwnTasksErase(s: State, w: nat)
    requires OwnTasks(s) && Enabled(s, Erase(w))
    ensures OwnTasks(StepErase(s, w))
  {
  }

  lemma OwnTasksSame(s: State, s': State)
    requires OwnTasks(s) && SameTasks(s.workers, s'.workers)
    requires s.h.started == s'.h.started && s.h.completed == s'.h.completed
    ensures OwnTasks(s')
  {
  }

  lemma BelowNext(a: set<nat>, b: set<nat>, n: nat)
    requires a + b == Below(n)
    ensures n !in a && n !in b && a + {n} + b == Below(n + 1)
  {
    assert n !in Below(n);
  }

  lemma SplitTake(s: State, w: nat)
    requires Fifo(s) && Split(s) && Enabled(s, TakeTask(w)) && s.queue != []
    ensures |s.h.started| !in s.h.completed && Split(StepTake(s, w))
  {
    hide Fifo, Below, TaskIds;
    HeadId(s);
    BelowNext(s.inProgress, s.h.completed, s.queue[0].id);
    TaskIdsTake(s.workers, w, s.queue[0]);
  }

  lemma HeadId(s: State)
    requires Fifo(s) && s.queue != []
    ensures s.queue[0].id == |s.h.started|
  {
  }

  /** Who holds a task holds an in-progress id. */
  lemma HolderInProgress(s: State, w: nat)
    requires Split(s) && w < |s.workers|
    ensures InTask(s.workers[w]) ==> s.workers[w].task.id in s.inProgress
  {
  }

  lemma SplitErase(s: State, w: nat)
    requires OwnTasks(s) && Split(s) && Enabled(s, Erase(w))
    ensures Split(StepErase(s, w))
  {
    TaskIdsErase(s.workers, w);
    assert s.workers[w].task.id in s.inProgress;
  }

  predicate MovesTask(s: State, e: Event)
  {
    (e.TakeTask? && s.queue != []) || e.Erase?
  }

  lemma QuietStep(s: State, e: Event)
    requires Enabled(s, e) && !MovesTask(s, e)
    ensures SameTasks(s.workers, Step(s, e).workers)
    ensures Step(s, e).h.started == s.h.started && Step(s, e).h.completed == s.h.completed
    ensures Step(s, e).inProgress == s.inProgress
  {
  }

  lemma HoldingStep(s: State, e: Event)
    requires Fifo(s) && OwnTasks(s) && Split(s) && Enabled(s, e)
    ensures OwnTasks(Step(s, e)) && Split(Step(s, e))
  {
    if MovesTask(s, e) {
      match e
      case TakeTask(w) =>
        SplitTake(s, w);
        OwnTasksTake(s, w);
      case Erase(w) =>
        SplitErase(s, w);
        OwnTasksErase(s, w);
    } else {
      QuietStep(s, e);
      var s' := Step(s, e);
      OwnTasksSame(s, s');
      TaskIdsSame(s.workers, s'.workers);
      TaskIdsSame(s'.workers, s.workers);
    }
  }

  lemma RanOnceBody(s: State, e: Event)
    requires OwnTasks(s) && RanOnce(s) && Enabled(s, e) && (e.BodyReturns? || e.BodyThrows?)
    ensures RanOnce(Step(s, e))
  {
  }

  lemma RanOnceErase(s: State, w: nat)
    requires RanOnce(s) && Enabled(s, Erase(w))
    ensures RanOnce(StepErase(s, w))
  {
  }

  lemma RanOnceTake(s: State, w: nat)
    requires Fifo(s) && RanOnce(s) && Enabled(s, TakeTask(w))
    ensures RanOnce(StepTake(s, w))
  {
  }

  lemma RanOnceSame(s: State, s': State)
    requires RanOnce(s) && s'.h.(submitted := s.h.submitted, recorded := s.h.recorded, rethrown := s.h.rethrown) == s.h
    requires |s.workers| == |s'.workers|
    requires forall i :: 0 <= i < |s.workers| && InTask(s'.workers[i]) ==>
               InTask(s.workers[i]) && s.workers[i].task == s'.workers[i].task
               && s.workers[i].Running? == s'.workers[i].Running?
    ensures RanOnce(s')
  {
  }

  lemma RanOnceStep(s: State, e: Event)
    requires Fifo(s) && OwnTasks(s) && RanOnce(s) && Enabled(s, e)
    ensures RanOnce(Step(s, e))
  {
    if e.BodyReturns? || e.BodyThrows? {
      RanOnceBody(s, e);
    } else if e.Erase? {
      RanOnceErase(s, e.w);
    } else if e.TakeTask? {
      RanOnceTake(s, e.w);
    } else {
      RanOnceSame(s, Step(s, e));
    }
  }

  lemma ExceptionsBody(s: State, e: Event)
    requires OwnTasks(s) && Exceptions(s) && Enabled(s, e) && (e.BodyReturns? || e.BodyThrows?)
    ensures Exceptions(Step(s, e))
  {
  }

  lemma ExceptionsRecord(s: State, w: nat)
    requires OwnTasks(s) && Exceptions(s) && Enabled(s, Record(w))
    ensures Exceptions(Step(s, Record(w)))
  {
    var s' := Step(s, Record(w));
    assert forall r :: r in s'.h.recorded <==> r in s.h.recorded || r == Thrown(s.workers[w].task.id, s.workers[w].exn);
    assert forall i :: 0 <= i < |s.h.recorded| ==> s.h.recorded[i] in s.h.recorded;
  }

  lemma ExceptionsErase(s: State, w: nat)
    requires Exceptions(s) && Enabled(s, Erase(w))
    ensures Exceptions(StepErase(s, w))
  {
  }

  lemma ExceptionsTake(s: State, w: nat)
    requires Fifo(s) && Exceptions(s) && Enabled(s, TakeTask(w))
    ensures Exceptions(StepTake(s, w))
  {
  }

  lemma ExceptionsWait(s: State, c: nat)
    requires Exceptions(s) && Enabled(s, WaitCheck(c))
    ensures Exceptions(StepWait(s, c))
  {
  }

  /** Nothing about tasks, outcomes or exceptions changes. */
  ghost predicate SameExceptions(s: State, s': State)
  {
    && |s'.workers| == |s.workers|
    && (forall i :: 0 <= i < |s.workers| && InTask(s'.workers[i]) ==> s'.workers[i] == s.workers[i])
    && s'.firstException == s.firstException
    && s'.h.(submitted := s.h.submitted) == s.h
  }

  lemma ExceptionsSame(s: State, s': State)
    requires Exceptions(s) && SameExceptions(s, s')
    ensures Exceptions(s')
  {
  }

  lemma ClientStepSame(s: State, e: Event)
    requires Enabled(s, e)
    requires !(e.BodyReturns? || e.BodyThrows? || e.Record? || e.Erase? || e.TakeTask? || e.WaitCheck?)
    ensures SameExceptions(s, Step(s, e))
  {
  }

  lemma ExceptionsStep(s: State, e: Event)
    requires Fifo(s) && OwnTasks(s) && Exceptions(s) && Enabled(s, e)
    ensures Exceptions(Step(s, e))
  {
    match e
    case BodyReturns(_) => ExceptionsBody(s, e);
    case BodyThrows(_, _) => ExceptionsBody(s, e);
    case Record(w) => ExceptionsRecord(s, w);
    case Erase(w) => ExceptionsErase(s, w);
    case TakeTask(w) => ExceptionsTake(s, w);
    case WaitCheck(c) => ExceptionsWait(s, c);
    case _ =>
      ClientStepSame(s, e);
      ExceptionsSame(s, Step(s, e));
  }

  lemma NoLostWakeupNotify(s: State, c: nat, woken: Option<nat>)
    requires NoLostWakeup(s) && Enabled(s, SubmitNotify(c, woken))
    ensures NoLostWakeup(Step(s, SubmitNotify(c, woken)))
  {
    TotalUpdate(s.clients, c, Idle, OwesNotify);
    if woken.Some? {
      TotalUpdate(s.workers, woken.value, Ready, IsReady);
    }
  }

  lemma NoLostWakeupPush(s: State, c: nat, job: Job)
    requires NoLostWakeup(s) && Enabled(s, SubmitPush(c, job))
    ensures NoLostWakeup(Step(s, SubmitPush(c, job)))
  {
    TotalUpdate(s.clients, c, Notifying, OwesNotify);
  }

  predicate ByWorker(e: Event)
  {
    e.WorkSpurious? || e.TakeTask? || e.BodyReturns? || e.BodyThrows? || e.Record? || e.Erase?
  }

  lemma NoLostWakeupWorker(s: State, e: Event)
    requires NoLostWakeup(s) && Enabled(s, e) && ByWorker(e)
    ensures NoLostWakeup(Step(s, e))
  {
    var s' := Step(s, e);
    TotalUpdate(s.workers, e.w, s'.workers[e.w], IsReady);
    TotalCongruent(s.clients, s'.clients, OwesNotify);
  }

  lemma NoLostWakeupStep(s: State, e: Event)
    requires NoLostWakeup(s) && Enabled(s, e)
    ensures NoLostWakeup(Step(s, e))
  {
    if ByWorker(e) {
      NoLostWakeupWorker(s, e);
    } else if e.SubmitPush? {
      NoLostWakeupPush(s, e.c, e.job);
    } else if e.SubmitNotify? {
      NoLostWakeupNotify(s, e.c, e.woken);
    } else {
      TotalCongruent(s.clients, Step(s, e).clients, OwesNotify);
    }
  }

  lemma NoLostCompletionStep(s: State, e: Event)
    requires NoLostCompletion(s) && Enabled(s, e)
    ensures NoLostCompletion(Step(s, e))
  {
  }

  lemma ExitedDrainedStep(s: State, e: Event)
    requires ExitedDrained(s) && Enabled(s, e)
    ensures ExitedDrained(Step(s, e))
  {
  }

  lemma BroadcastHeardWorker(s: State, e: Event)
    requires BroadcastHeard(s) && Enabled(s, e) && ByWorker(e)
    ensures BroadcastHeard(Step(s, e))
  {
  }

  lemma BroadcastHeardClient(s: State, e: Event)
    requires BroadcastHeard(s) && Enabled(s, e) && !ByWorker(e)
    ensures BroadcastHeard(Step(s, e))
  {
    hide Observe;
    if e.NotifyAll? {
      BroadcastHeardNotifyAll(s, e.c);
    }
  }

  lemma BroadcastHeardNotifyAll(s: State, c: nat)
    requires BroadcastHeard(s) && Enabled(s, NotifyAll(c))
    ensures BroadcastHeard(Step(s, NotifyAll(c)))
  {
  }

  lemma InvInit(workers: nat, clients: nat)
    ensures Inv(Init(workers, clients))
  {
    var s := Init(workers, clients);
    assert TaskIds(s.workers) == {};
  }

  lemma InvStep(s: State, e: Event)
    requires Inv(s) && Enabled(s, e)
    ensures Inv(Step(s, e))
  {
    FifoStep(s, e);
    HoldingStep(s, e);
    RanOnceStep(s, e);
    ExceptionsStep(s, e);
    NoLostWakeupStep(s, e);
    NoLostCompletionStep(s, e);
    ExitedDrainedStep(s, e);
    if ByWorker(e) {
      BroadcastHeardWorker(s, e);
    } else {
      BroadcastHeardClient(s, e);
    }
  }

  /** The invariant holds after every schedule. */
  lemma {:induction false} InvRun(s: State, es: seq<Event>)
    requires Inv(s) && Feasible(s, es)
    ensures Inv(Run(s, es))
    decreases |es|
  {
    if es != [] {
      InvStep(s, es[0]);
      InvRun(Step(s, es[0]), es[1..]);
    }
  }

  /** Some schedule of a freshly constructed pool leads here. */
  ghost predicate Reachable(s: State)
  {
    exists workers: nat, clients: nat, es: seq<Event> ::
      Feasible(Init(workers, clients), es) && Run(Init(workers, clients), es) == s
  }

  lemma ReachableInv(s: State)
    requires Reachable(s)
    ensures Inv(s)
  {
    hide Inv;
    var workers: nat, clients: nat, es :| Feasible(Init(workers, clients), es) && Run(Init(workers, clients), es) == s;
    InvInit(workers, clients);
    InvRun(Init(workers, clients), es);
  }
}
