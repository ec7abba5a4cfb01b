/** The main program's phases 3 and 4 as code over the pool object. */
module Harness {
  import opened Common
  import opened HarnessModel
  import opened HarnessProofs
  import opened Pool
  import P = PoolModel
  import PP = PoolProofs

  class Program {
    const pool: ThreadPool
    const tests: nat
    var activeTestsCount: int
    var stop: bool

    ghost var main: Main
    ghost var ended: set<nat>
    ghost var decremented: set<nat>

    ghost function Model(): State
      reads this, pool
    {
      State(pool.Model(), tests, activeTestsCount, stop, main, ended, decremented)
    }

    ghost predicate Valid()
      reads this, pool
    {
      Inv(Model())
    }

    constructor (tests: nat, maxThreads: nat)
      ensures Valid() && fresh(pool) && Model() == Init(tests, maxThreads)
    {
      pool := new ThreadPool(maxThreads, 1);
      this.tests := tests;
      activeTestsCount, stop := 0, false;
      main, ended, decremented := Announcing(0), {}, {};
      new;
      InvInit(tests, maxThreads);
    }

    /** The count goes up before the test is submitted. */
    method AnnounceTest(i: nat)
      requires Enabled(Model(), Announce) && main.i == i
      requires Valid()
      modifies this
      ensures Valid() && Model() == Step(old(Model()), Announce)
    {
      hide Inv;
      InvStep(Model(), Announce);
      activeTestsCount := activeTestsCount + 1;
      main := Pushing(i);
    }

    /** The loop of phase 3 ends after the last test. */
    method LeaveSubmitLoop()
      requires Enabled(Model(), LeaveLoop)
      requires Valid()
      modifies this
      ensures Valid() && Model() == Step(old(Model()), LeaveLoop)
    {
      hide Inv;
      InvStep(Model(), LeaveLoop);
      main := Heartbeat;
    }

    method Push(i: nat)
      requires Enabled(Model(), Event.Push) && main.i == i
      requires Valid()
      modifies this, pool
      ensures Valid() && Model() == Step(old(Model()), Event.Push)
    {
      hide Inv;
      InvStep(Model(), Event.Push);
      PoolValid(Model());
      var id := pool.SubmitPush(0, i);
      main := Notifying(i);
    }

    /** The heartbeat looks at the count; seeing zero, it leaves the loop. */
    method CheckActive() returns (zero: bool)
      requires main == Heartbeat
      requires Valid()
      modifies this
      ensures Valid() && zero == old(Enabled(Model(), SeeZero))
      ensures Model() == if zero then Step(old(Model()), SeeZero) else old(Model())
      ensures zero <==> old(activeTestsCount) == 0
      ensures zero ==> ended == Below(tests)
    {
      hide Inv;
      zero := activeTestsCount == 0;
      if zero {
        InvStep(Model(), SeeZero);
        ZeroMeansEnded(Model());
        main := RaisingStop;
      }
    }

    /** The heartbeat's time is up. */
    method LeaveHeartbeat()
      requires Enabled(Model(), TimeUp)
      requires Valid()
      modifies this
      ensures Valid() && Model() == Step(old(Model()), TimeUp)
    {
      hide Inv;
      InvStep(Model(), TimeUp);
      main := RaisingStop;
    }

    method StopAll()
      requires Enabled(Model(), RaiseStop)
      requires Valid()
      modifies this
      ensures Valid() && Model() == Step(old(Model()), RaiseStop)
    {
      hide Inv;
      InvStep(Model(), RaiseStop);
      stop := true;
      main := CallingWait;
    }

    /** One test of the predicate of main's wait; `clear` says that tests.clear() comes next. */
    method TestPoolWait() returns (clear: bool)
      requires Enabled(Model(), TestWait)
      requires Valid()
      modifies this, pool
      ensures Valid() && Model() == Step(old(Model()), TestWait)
      ensures clear <==> main == Clearing
      ensures clear ==> ended == Below(tests) && activeTestsCount == 0
    {
      hide Inv, PP.Inv;
      InvStep(Model(), TestWait);
      PoolValid(Model());
      NoRethrow(Model());
      ghost var next := NextMain(Model(), TestWait);
      var outcome := pool.WaitCheck(0);
      clear := outcome.Returns?;
      main := next;
      if clear {
        ClearingDone(Model());
      }
    }

    /** The end of a test's start, by return or by a caught exception. */
    ghost method EndStart(w: nat)
      requires Enabled(Model(), StartEnds(w))
      requires Valid()
      modifies this`ended
      ensures Valid() && Model() == Step(old(Model()), StartEnds(w))
    {
      hide Inv;
      InvStep(Model(), StartEnds(w));
      ended := ended + {pool.workers[w].task.id};
    }

    /** The last statement of a task body. */
    method DecrementActive(ghost w: nat)
      requires Enabled(Model(), Decrement(w))
      requires Valid()
      modifies this
      ensures Valid() && Model() == Step(old(Model()), Decrement(w))
    {
      hide Inv;
      InvStep(Model(), Decrement(w));
      activeTestsCount := activeTestsCount - 1;
      decremented := decremented + {pool.workers[w].task.id};
    }

    /** What submit does after unlocking, with the loop's increment. */
    ghost method Notify(woken: Option<nat>)
      requires Enabled(Model(), Event.Notify(woken))
      requires Valid()
      modifies this`main, pool`workers, pool`clients
      ensures Valid() && Model() == Step(old(Model()), Event.Notify(woken))
    {
      hide Inv, PP.Inv, P.MayWake;
      InvStep(Model(), Event.Notify(woken));
      PoolValid(Model());
      var next := NextMain(Model(), Event.Notify(woken));
      pool.SubmitNotify(0, woken);
      main := next;
    }

    /** The destructor's test of the wait predicate: it neither blocks nor rethrows. */
    method TestDestructorWait() returns (r: P.WaitOutcome)
      requires Enabled(Model(), Destroy(P.WaitCheck(0)))
      requires Valid()
      modifies pool
      ensures Valid() && Model() == Step(old(Model()), Destroy(P.WaitCheck(0)))
      ensures r.Returns?
    {
      hide Inv;
      InvStep(Model(), Destroy(P.WaitCheck(0)));
      PoolValid(Model());
      NoRethrow(Model());
      StillQuiescent(Model());
      r := pool.WaitCheck(0);
    }

    method StopPool()
      requires Enabled(Model(), Destroy(P.SetStopping(0)))
      requires Valid()
      modifies pool`stopping, pool`clients
      ensures Valid() && Model() == Step(old(Model()), Destroy(P.SetStopping(0)))
    {
      hide Inv;
      InvStep(Model(), Destroy(P.SetStopping(0)));
      PoolValid(Model());
      pool.SetStopping(0);
    }

    /** A worker takes a test, sleeps, or leaves; it leaves only under the destructor. */
    method WorkerTakes(ghost w: nat) returns (r: Taken)
      requires Enabled(Model(), Worker(P.TakeTask(w)))
      requires Valid()
      modifies pool
      ensures Valid() && Model() == Step(old(Model()), Worker(P.TakeTask(w)))
      ensures r.Exit? ==> main == Destroying
      ensures r.Run? ==> r.task.job == r.task.id < tests && r.task.id !in ended
    {
      hide Inv;
      InvStep(Model(), Worker(P.TakeTask(w)));
      PoolValid(Model());
      OnlyDestructorStops(Model());
      HeadNotStarted(Model());
      r := pool.TakeTask(w);
    }

    method WorkerErases(ghost w: nat, task: P.QueuedTask) returns (notified: bool)
      requires Enabled(Model(), Worker(P.Erase(w))) && pool.workers[w].task == task
      requires Valid()
      modifies pool
      ensures Valid() && Model() == Step(old(Model()), Worker(P.Erase(w)))
      ensures notified <==> P.Quiescent(pool.Model())
    {
      hide Inv;
      InvStep(Model(), Worker(P.Erase(w)));
      PoolValid(Model());
      notified := pool.Erase(w, task);
    }

    /** Steps that touch no field: calling wait, wake-ups, clearing, body ends, broadcast, join. */
    ghost method Schedule(e: Event)
      requires Enabled(Model(), e)
      requires Valid()
      requires e.CallWait? || e.WakeSpuriously? || e.ClearTests?
               || (e.Destroy? && (e.d.WaitBegin? || e.d.DoneSpurious? || e.d.NotifyAll? || e.d.Join?))
               || (e.Worker? && (e.p.WorkSpurious? || e.p.BodyReturns?))
      modifies this`main, pool`workers, pool`clients, pool`history
      ensures Valid() && Model() == Step(old(Model()), e)
    {
      hide Inv, PP.Inv, P.Observe;
      InvStep(Model(), e);
      PoolValid(Model());
      var next := NextMain(Model(), e);
      var part := PoolPart(Model(), e);
      if part.Some? {
        pool.Schedule(part.value);
      }
      main := next;
    }
  }

  lemma ClearingDone(s: State)
    requires Inv(s) && s.main.Clearing?
    ensures s.ended == Below(s.tests) && s.active == 0
  {
    AllDone(s);
  }

  lemma PoolValid(s: State)
    requires Inv(s)
    ensures PP.Inv(s.pool)
  {
  }

  lemma StillQuiescent(s: State)
    requires Inv(s) && s.main.Destroying?
    ensures P.Quiescent(s.pool)
  {
  }

  lemma OnlyDestructorStops(s: State)
    requires Inv(s)
    ensures s.pool.stopping ==> s.main.Destroying?
  {
  }

  /** The next task is the test of its number, whose start has not ended. */
  lemma HeadNotStarted(s: State)
    requires Inv(s)
    ensures s.pool.queue != [] ==>
              var t := s.pool.queue[0]; t.job == t.id < s.tests && t.id !in s.ended
  {
  }
}
