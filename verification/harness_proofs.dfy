/** The lifecycle facts, for every schedule. */
module HarnessProofs {
  import opened Common
  import opened HarnessModel
  import P = PoolModel
  import PP = PoolProofs

  /** Tests counted into activeTestsCount so far. */
  function Announced(s: State): nat
  {
    match s.main
    case Announcing(i) => i
    case Pushing(i) => i + 1
    case Notifying(i) => i + 1
    case _ => s.tests
  }

  function Submitted(s: State): nat
  {
    if s.main.Pushing? then s.main.i else Announced(s)
  }

  /** Main's position and the pool's view of its client agree. */
  ghost predicate ClientFits(s: State)
  {
    && |s.pool.clients| == 1
    && match s.main
       case Notifying(i) => i < s.tests && s.pool.clients[0].Notifying?
       case Pushing(i) => i < s.tests && s.pool.clients[0].Idle?
       case Announcing(i) => i <= s.tests && s.pool.clients[0].Idle?
       case Waiting => s.pool.clients[0] == P.Checking(false) || s.pool.clients[0] == P.Blocked(false)
       case Destroying => DestroyingFits(s.pool.clients[0])
       case Escaped => false
       case _ => s.pool.clients[0].Idle?
  }

  predicate DestroyingFits(c: P.Client)
  {
    match c
    case Checking(destroying) => destroying
    case Blocked(destroying) => destroying
    case Notifying => false
    case Terminated => false
    case _ => true
  }

  ghost predicate StopFits(s: State)
  {
    && (s.stop <==> s.main.CallingWait? || s.main.Waiting? || s.main.Clearing? || s.main.Destroying?)
    && (s.main.Clearing? || s.main.Destroying? ==> P.Quiescent(s.pool))
    && (s.pool.stopping ==> s.main.Destroying?)
  }

  /** Test i is the task with id i. */
  ghost predicate OneTaskPerTest(s: State)
  {
    && s.pool.nextId == Submitted(s)
    && |s.pool.h.submitted| == Submitted(s)
    && forall i :: 0 <= i < |s.pool.h.submitted| ==> s.pool.h.submitted[i] == i
  }

  ghost predicate Counted(s: State)
  {
    && s.active == Announced(s) - |s.decremented|
    && s.decremented <= s.ended <= Below(|s.pool.h.started|)
  }

  /** Whoever is past its body has decremented, and no body has thrown. */
  ghost predicate BodiesDecrement(s: State)
  {
    && s.pool.h.completed <= s.decremented
    && (forall w :: 0 <= w < |s.pool.workers| && s.pool.workers[w].Erasing? ==>
          s.pool.workers[w].task.id in s.decremented)
    && (forall w :: 0 <= w < |s.pool.workers| ==> !s.pool.workers[w].Recording?)
    && s.pool.h.recorded == []
    && s.pool.firstException == None
  }

  ghost predicate Inv(s: State)
  {
    PP.Inv(s.pool) && ClientFits(s) && StopFits(s) && OneTaskPerTest(s) && Counted(s) && BodiesDecrement(s)
  }

  lemma PoolStep(s: State, e: Event)
    requires PP.Inv(s.pool) && Enabled(s, e)
    ensures PP.Inv(Step(s, e).pool)
  {
    hide PP.Inv;
    if PoolPart(s, e).Some? {
      PP.InvStep(s.pool, PoolPart(s, e).value);
    }
  }

  /** A quiescent pool stays so as long as nobody submits. */
  lemma QuiescentStep(p: P.State, e: P.Event)
    requires PP.Split(p) && P.Quiescent(p) && P.Enabled(p, e) && !e.SubmitPush?
    ensures P.Quiescent(P.Step(p, e))
  {
    forall w | 0 <= w < |p.workers| ensures !P.InTask(p.workers[w]) {
      PP.HolderInProgress(p, w);
    }
  }

  /** What a worker's step does to the pool's clients: at most wake those blocked in wait. */
  lemma WorkerStepClients(p: P.State, e: P.Event)
    requires P.Enabled(p, e) && (e.TakeTask? || e.WorkSpurious? || e.Erase? || e.BodyReturns?)
    ensures P.Step(p, e).clients == p.clients || P.Step(p, e).clients == P.WakeAllWaiters(p.clients)
  {
  }

  lemma ClientFitsStep(s: State, e: Event)
    requires ClientFits(s) && s.pool.firstException == None && Enabled(s, e)
    ensures ClientFits(Step(s, e))
  {
    if e.Worker? {
      WorkerStepClients(s.pool, e.p);
    } else if e.Destroy? {
      DestroyStep(s, e);
    }
  }

  lemma DestroyStep(s: State, e: Event)
    requires ClientFits(s) && s.pool.firstException == None && Enabled(s, e) && e.Destroy?
    ensures ClientFits(Step(s, e))
  {
  }

  lemma StopFitsStep(s: State, e: Event)
    requires PP.Split(s.pool) && StopFits(s) && s.pool.firstException == None && Enabled(s, e)
    ensures StopFits(Step(s, e))
  {
    PoolPartKeeps(s, e);
    hide P.Step, P.Enabled, P.Quiescent, PP.Split, PoolPart;
  }

  /** What an event's part in the pool does to quiescence and to stopping. */
  lemma PoolPartKeeps(s: State, e: Event)
    requires PP.Split(s.pool) && Enabled(s, e)
    ensures P.Quiescent(s.pool) && !e.Push? ==> P.Quiescent(Step(s, e).pool)
    ensures Step(s, e).pool.stopping ==> s.pool.stopping || e.Destroy?
    ensures e.TestWait? && P.Observe(s.pool).Returns? ==> P.Quiescent(s.pool)
    ensures e.TestWait? && s.pool.firstException == None ==> !P.Observe(s.pool).Rethrows?
  {
    if PoolPart(s, e).Some? {
      var d := PoolPart(s, e).value;
      StoppingStep(s.pool, d);
      if P.Quiescent(s.pool) && !e.Push? {
        QuiescentStep(s.pool, d);
      }
    }
    hide P.Step, P.Enabled, PP.Split, P.Quiescent;
  }

  lemma StoppingStep(p: P.State, e: P.Event)
    requires P.Enabled(p, e)
    ensures P.Step(p, e).stopping == (p.stopping || e.SetStopping?)
  {
  }

  lemma OneTaskPerTestStep(s: State, e: Event)
    requires ClientFits(s) && OneTaskPerTest(s) && Enabled(s, e)
    ensures OneTaskPerTest(Step(s, e))
  {
  }

  lemma StartedGrows(s: State, e: Event)
    requires Enabled(s, e)
    ensures |s.pool.h.started| <= |Step(s, e).pool.h.started|
  {
  }

  lemma CountedStep(s: State, e: Event)
    requires PP.OwnTasks(s.pool) && ClientFits(s) && Counted(s) && Enabled(s, e)
    ensures Counted(Step(s, e))
  {
    StartedGrows(s, e);
    AnnouncedStep(s, e);
    if e.Decrement? || e.StartEnds? {
      assert P.InTask(s.pool.workers[e.w]);
    }
  }

  lemma AnnouncedStep(s: State, e: Event)
    requires ClientFits(s) && Enabled(s, e)
    ensures Announced(Step(s, e)) == Announced(s) + if e.Announce? then 1 else 0
  {
  }

  lemma BodiesDecrementWorker(s: State, e: Event)
    requires BodiesDecrement(s) && Enabled(s, e) && e.Worker?
    ensures BodiesDecrement(Step(s, e))
  {
    if e.p.Erase? {
      BodiesDecrementErase(s, e.p.w);
    }
  }

  lemma BodiesDecrementErase(s: State, w: nat)
    requires BodiesDecrement(s) && Enabled(s, Worker(P.Erase(w)))
    ensures BodiesDecrement(Step(s, Worker(P.Erase(w))))
  {
  }

  lemma BodiesDecrementOther(s: State, e: Event)
    requires BodiesDecrement(s) && Enabled(s, e) && !e.Worker?
    ensures BodiesDecrement(Step(s, e))
  {
  }

  lemma InvInit(tests: nat, maxThreads: nat)
    ensures Inv(Init(tests, maxThreads))
  {
    PP.InvInit(maxThreads, 1);
  }

  lemma InvStep(s: State, e: Event)
    requires Inv(s) && Enabled(s, e)
    ensures Inv(Step(s, e))
  {
    PoolStep(s, e);
    ClientFitsStep(s, e);
    StopFitsStep(s, e);
    OneTaskPerTestStep(s, e);
    CountedStep(s, e);
    if e.Worker? {
      BodiesDecrementWorker(s, e);
    } else {
      BodiesDecrementOther(s, e);
    }
  }

  lemma {:induction false} InvRun(s: State, es: seq<Event>)
    requires Inv(s) && Feasible(s, es)
    ensures Inv(Run(s, es))
    decreases |es|
  {
    hide Inv;
    if es != [] {
      InvStep(s, es[0]);
      InvRun(Step(s, es[0]), es[1..]);
    }
  }

  lemma {:induction false} SizesStay(s: State, es: seq<Event>)
    requires Feasible(s, es)
    ensures Run(s, es).tests == s.tests && |Run(s, es).pool.workers| == |s.pool.workers|
    decreases |es|
  {
    if es != [] {
      SizesStay(Step(s, es[0]), es[1..]);
    }
  }

  lemma Reached(tests: nat, maxThreads: nat, es: seq<Event>)
    requires Feasible(Init(tests, maxThreads), es)
    ensures Inv(Run(Init(tests, maxThreads), es))
    ensures Run(Init(tests, maxThreads), es).tests == tests
    ensures |Run(Init(tests, maxThreads), es).pool.workers| == maxThreads
  {
    InvInit(tests, maxThreads);
    InvRun(Init(tests, maxThreads), es);
    SizesStay(Init(tests, maxThreads), es);
  }

  lemma FullSubset(s: set<nat>, n: nat)
    requires s <= Below(n) && |s| == n
    ensures s == Below(n)
  {
    assert |Below(n) - s| == 0;
  }

  /** activeTestsCount is the tests announced minus the bodies that decremented; it is never negative. */
  lemma ActiveCount(tests: nat, maxThreads: nat, es: seq<Event>)
    requires Feasible(Init(tests, maxThreads), es)
    ensures var s := Run(Init(tests, maxThreads), es); 0 <= s.active == Announced(s) - |s.decremented|
  {
    Reached(tests, maxThreads, es);
    var s := Run(Init(tests, maxThreads), es);
    SubsetSize(s.decremented, |s.pool.h.started|);
  }

  lemma SubsetSize(s: set<nat>, n: nat)
    requires s <= Below(n)
    ensures |s| <= n
  {
    assert |Below(n) - s| == n - |s|;
  }

  /** When the heartbeat sees zero, every test has been submitted and its start has returned or thrown. */
  lemma SeeZeroMeansAllEnded(tests: nat, maxThreads: nat, es: seq<Event>)
    requires Feasible(Init(tests, maxThreads), es)
    requires Enabled(Run(Init(tests, maxThreads), es), SeeZero)
    ensures var s := Run(Init(tests, maxThreads), es); s.ended == Below(tests) == s.decremented
  {
    Reached(tests, maxThreads, es);
    ZeroMeansEnded(Run(Init(tests, maxThreads), es));
  }

  lemma StartedAtMostTests(s: State)
    requires Inv(s) && s.main.Heartbeat?
    ensures |s.pool.h.started| <= s.tests && s.active == s.tests - |s.decremented|
    ensures s.decremented <= s.ended <= Below(|s.pool.h.started|)
  {
  }

  lemma ZeroMeansEnded(s: State)
    requires Inv(s) && Enabled(s, SeeZero)
    ensures s.ended == Below(s.tests) == s.decremented
  {
    hide Inv;
    StartedAtMostTests(s);
    SubsetSize(s.decremented, |s.pool.h.started|);
    FullSubset(s.decremented, s.tests);
  }

  /** tests.clear() finds no task queued or running: every test's body has run once, to its end. */
  lemma ClearIsSafe(tests: nat, maxThreads: nat, es: seq<Event>)
    requires Feasible(Init(tests, maxThreads), es)
    requires Enabled(Run(Init(tests, maxThreads), es), ClearTests)
    ensures var s := Run(Init(tests, maxThreads), es);
            && s.stop && P.Quiescent(s.pool)
            && (forall w :: 0 <= w < |s.pool.workers| ==> !P.InTask(s.pool.workers[w]))
            && s.pool.h.completed == s.ended == Below(tests)
            && (forall i: nat :: i < tests ==>
                  s.pool.h.ran[i] == 1 && i < |s.pool.h.started| && s.pool.h.started[i] == P.QueuedTask(i, i))
            && s.active == 0
  {
    Reached(tests, maxThreads, es);
    var s := Run(Init(tests, maxThreads), es);
    AllDone(s);
  }

  lemma AllDone(s: State)
    requires Inv(s) && P.Quiescent(s.pool) && Submitted(s) == s.tests == Announced(s)
    ensures forall w :: 0 <= w < |s.pool.workers| ==> !P.InTask(s.pool.workers[w])
    ensures s.pool.h.completed == s.ended == Below(s.tests) && s.active == 0
    ensures forall i: nat :: i < s.tests ==>
              s.pool.h.ran[i] == 1 && i < |s.pool.h.started| && s.pool.h.started[i] == P.QueuedTask(i, i)
  {
    assert s.pool.h.completed == Below(s.tests);
    assert s.decremented == Below(s.tests);
    forall w | 0 <= w < |s.pool.workers| ensures !P.InTask(s.pool.workers[w]) {
      PP.HolderInProgress(s.pool, w);
    }
  }

  /** Task bodies catch everything, so main's wait, and the destructor's, never rethrow. */
  lemma WaitNeverRethrows(tests: nat, maxThreads: nat, es: seq<Event>)
    requires Feasible(Init(tests, maxThreads), es)
    ensures var s := Run(Init(tests, maxThreads), es);
            !P.Observe(s.pool).Rethrows? && !s.main.Escaped? && |s.pool.clients| == 1 && !s.pool.clients[0].Terminated?
  {
    Reached(tests, maxThreads, es);
    NoRethrow(Run(Init(tests, maxThreads), es));
  }

  lemma NoRethrow(s: State)
    requires Inv(s)
    ensures !P.Observe(s.pool).Rethrows? && !s.main.Escaped? && |s.pool.clients| == 1 && !s.pool.clients[0].Terminated?
  {
    hide PP.Inv, StopFits, OneTaskPerTest, Counted;
  }

  /** Nothing runs after the tests are gone: from tests.clear() on, no worker is ever on a task again. */
  lemma NothingRunsAfterClear(tests: nat, maxThreads: nat, es: seq<Event>)
    requires Feasible(Init(tests, maxThreads), es)
    ensures var s := Run(Init(tests, maxThreads), es);
            s.main.Destroying? ==> forall w :: 0 <= w < |s.pool.workers| ==> !P.InTask(s.pool.workers[w])
  {
    Reached(tests, maxThreads, es);
    var s := Run(Init(tests, maxThreads), es);
    if s.main.Destroying? {
      AllDone(s);
    }
  }
}
