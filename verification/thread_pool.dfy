/**
 The thread pool as the object it is: its fields, and one method for each critical
 section. Every method is proved to take the step of the same name, so everything
 proved about runs of steps holds of any interleaving of these methods.
 */
module Pool {
  import opened Common
  import opened PoolModel
  import opened PoolProofs

  datatype Taken = Sleep | Exit | Run(task: QueuedTask)

  class ThreadPool {
    var queuedTasks: seq<QueuedTask>
    var inProgressTasks: set<nat>
    var nextTaskId: nat
    var stopping: bool
    var firstException: Option<Exn>

    /** Program counters of the threads, which include who sleeps on which condition variable. */
    ghost var workers: seq<Worker>
    ghost var clients: seq<Client>
    ghost var history: History

    ghost function Model(): State
      reads this
    {
      State(queuedTasks, inProgressTasks, nextTaskId, stopping, firstException, workers, clients, history)
    }

    ghost predicate Valid()
      reads this
    {
      Inv(Model())
    }

    constructor (maxThreads: nat, ghost clientThreads: nat)
      ensures Valid() && Model() == Init(maxThreads, clientThreads)
    {
      queuedTasks, inProgressTasks, nextTaskId, stopping, firstException := [], {}, 0, false, None;
      workers, clients := Init(maxThreads, clientThreads).workers, Init(maxThreads, clientThreads).clients;
      history := Init(maxThreads, clientThreads).h;
      new;
      InvInit(maxThreads, clientThreads);
    }

    /** The critical section of submit. */
    method SubmitPush(ghost c: nat, job: Job) returns (id: nat)
      requires Enabled(Model(), Event.SubmitPush(c, job))
      requires Valid()
      modifies this
      ensures Valid() && Model() == Step(old(Model()), Event.SubmitPush(c, job))
      ensures id == old(nextTaskId)
    {
      hide Inv;
      InvStep(Model(), Event.SubmitPush(c, job));
      id := nextTaskId;
      nextTaskId := nextTaskId + 1;
      queuedTasks := queuedTasks + [QueuedTask(id, job)];
      clients := clients[c := Notifying];
      history := history.(submitted := history.submitted + [job]);
    }

    /** What submit does after unlocking: notify_one on workCondition. */
    ghost method SubmitNotify(c: nat, woken: Option<nat>)
      requires Enabled(Model(), Event.SubmitNotify(c, woken))
      requires Valid()
      modifies this`workers, this`clients
      ensures Valid() && Model() == Step(old(Model()), Event.SubmitNotify(c, woken))
    {
      hide Inv;
      InvStep(Model(), Event.SubmitNotify(c, woken));
      clients := clients[c := Idle];
      if woken.Some? {
        workers := workers[woken.value := Ready];
      }
    }

    /** One test of wait's predicate, and what follows if it is true. */
    method WaitCheck(ghost c: nat) returns (r: WaitOutcome)
      requires Enabled(Model(), Event.WaitCheck(c))
      requires Valid()
      modifies this
      ensures Valid() && Model() == Step(old(Model()), Event.WaitCheck(c))
      ensures r == Observe(old(Model()))
    {
      hide Inv;
      InvStep(Model(), Event.WaitCheck(c));
      ghost var destroying := clients[c].destroying;
      if !(queuedTasks == [] && inProgressTasks == {}) {
        clients := clients[c := Blocked(destroying)];
        return Blocks;
      }
      if firstException.Some? {
        var exception := firstException.value;
        firstException := None;
        clients := clients[c := if destroying then Terminated else Idle];
        history := history.(rethrown := |history.recorded|);
        return Rethrows(exception);
      }
      clients := clients[c := if destroying then Stopping else Idle];
      return Returns;
    }

    /** The destructor's critical section. */
    method SetStopping(ghost c: nat)
      requires Enabled(Model(), Event.SetStopping(c))
      requires Valid()
      modifies this`stopping, this`clients
      ensures Valid() && Model() == Step(old(Model()), Event.SetStopping(c))
    {
      hide Inv;
      InvStep(Model(), Event.SetStopping(c));
      stopping := true;
      clients := clients[c := NotifyingAll];
    }

    /** One test of the worker's wait predicate, and what follows if it is true. */
    method TakeTask(ghost w: nat) returns (r: Taken)
      requires Enabled(Model(), Event.TakeTask(w))
      requires Valid()
      modifies this
      ensures Valid() && Model() == Step(old(Model()), Event.TakeTask(w))
      ensures r.Run? <==> old(queuedTasks) != []
      ensures r.Run? ==> r.task == old(queuedTasks)[0] && r.task.id !in old(inProgressTasks)
      ensures r.Exit? <==> old(stopping && queuedTasks == [])
    {
      hide Inv;
      InvStep(Model(), Event.TakeTask(w));
      if !(stopping || queuedTasks != []) {
        workers := workers[w := Asleep];
        return Sleep;
      }
      if stopping && queuedTasks == [] {
        workers := workers[w := Exited];
        return Exit;
      }
      var task := queuedTasks[0];
      FreshId(Model());
      queuedTasks := queuedTasks[1..];
      inProgressTasks := inProgressTasks + {task.id};
      workers := workers[w := Running(task)];
      history := history.(started := history.started + [task]);
      return Taken.Run(task);
    }

    /** The critical section of the catch block. */
    method Record(ghost w: nat, exn: Exn)
      requires Enabled(Model(), Event.Record(w)) && workers[w].exn == exn
      requires Valid()
      modifies this
      ensures Valid() && Model() == Step(old(Model()), Event.Record(w))
    {
      hide Inv;
      InvStep(Model(), Event.Record(w));
      if firstException.None? {
        firstException := Some(exn);
      }
      history := history.(recorded := history.recorded + [Thrown(workers[w].task.id, exn)]);
      workers := workers[w := Erasing(workers[w].task)];
    }

    /** The critical section that ends a task. */
    method Erase(ghost w: nat, task: QueuedTask) returns (notified: bool)
      requires Enabled(Model(), Event.Erase(w)) && workers[w].task == task
      requires Valid()
      modifies this
      ensures Valid() && Model() == Step(old(Model()), Event.Erase(w))
      ensures notified <==> Quiescent(Model())
    {
      hide Inv;
      InvStep(Model(), Event.Erase(w));
      inProgressTasks := inProgressTasks - {task.id};
      workers := workers[w := Ready];
      history := history.(completed := history.completed + {task.id});
      notified := queuedTasks == [] && inProgressTasks == {};
      if notified {
        clients := WakeAllWaiters(clients);
      }
    }

    /** Steps that touch no field: task bodies, spurious wake-ups, broadcasts, joins. */
    ghost method Schedule(e: Event)
      requires Enabled(Model(), e)
      requires Valid()
      requires e.WaitBegin? || e.DoneSpurious? || e.NotifyAll? || e.Join?
               || e.WorkSpurious? || e.BodyReturns? || e.BodyThrows?
      modifies this`workers, this`clients, this`history
      ensures Valid() && Model() == Step(old(Model()), e)
    {
      hide Inv;
      InvStep(Model(), e);
      var next := Step(Model(), e);
      workers, clients, history := next.workers, next.clients, next.h;
    }
  }

  /** The task at the head of the queue is not in progress already. */
  lemma FreshId(s: State)
    requires Inv(s) && s.queue != []
    ensures s.queue[0].id !in s.inProgress + s.h.completed
  {
    assert |s.h.started| !in Below(|s.h.started|);
  }
}
