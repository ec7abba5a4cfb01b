/**
 The main program ends. Provided every test's start ends once stop is raised, if not
 before, it takes a computable number of steps, whatever the schedule, to clear the
 tests, destroy the pool and join it.
 */
module HarnessProgress {
  import opened Common
  import opened HarnessModel
  import opened HarnessProofs
  import P = PoolModel
  import PP = PoolProofs
  import PT = PoolTheorems

  /** Steps that get somewhere: all but spurious wake-ups and tests of a wait predicate that is false. */
  predicate IsProgress(s: State, e: Event)
  {
    match e
    case Worker(p) => !p.WorkSpurious?
    case WakeSpuriously => false
    case TestWait => P.Quiescent(s.pool)
    case Destroy(d) => !d.DoneSpurious? && (d.WaitCheck? ==> P.Quiescent(s.pool))
    case _ => true
  }

  predicate WakesWorker(e: Event)
  {
    e.Worker? && e.p.WorkSpurious?
  }

  ghost function DestructorRank(c: P.Client): nat
  {
    match c
    case Idle => 5
    case Checking(_) => 4
    case Blocked(_) => 4
    case Stopping => 3
    case NotifyingAll => 2
    case Joining => 1
    case _ => 0
  }

  /** Main's own steps still to come, those of the pushes counted with the work they bring. */
  ghost function MainRank(s: State): int
    requires |s.pool.clients| == 1
  {
    match s.main
    case Announcing(i) => 8 * (s.tests - i) + 11
    case Pushing(i) => 8 * (s.tests - i) + 10
    case Notifying(i) => 8 * (s.tests - i) + 3
    case Heartbeat => 10
    case RaisingStop => 9
    case CallingWait => 8
    case Waiting => 7
    case Clearing => 6
    case Destroying => DestructorRank(s.pool.clients[0])
    case Escaped => 0
  }

  /** Task bodies that have yet to see their test end, and to decrement. */
  ghost function BodiesLeft(s: State): int
  {
    2 * s.tests - |s.ended| - |s.decremented|
  }

  ghost function Left(s: State): int
    requires |s.pool.clients| == 1
  {
    MainRank(s) + BodiesLeft(s) + PT.Measure(s.pool)
  }

  lemma LeftNonNegative(s: State)
    requires Inv(s)
    ensures |s.pool.clients| == 1 && Left(s) >= 0
  {
    hide PP.Inv, PT.Measure;
    StartedAtMostSubmitted(s);
    SubsetSize(s.ended, |s.pool.h.started|);
    SubsetSize(s.decremented, |s.pool.h.started|);
  }

  lemma StartedAtMostSubmitted(s: State)
    requires Inv(s)
    ensures |s.pool.h.started| <= s.tests && s.decremented <= s.ended <= Below(|s.pool.h.started|)
  {
  }

  // ----- every step of progress lowers what is left -----

  lemma LeftMain(s: State, e: Event)
    requires ClientFits(s) && Enabled(s, e) && PoolPart(s, e).None?
    ensures |Step(s, e).pool.clients| == 1 && Left(Step(s, e)) < Left(s)
  {
    hide PT.Measure, P.Step, P.Enabled;
    if e.StartEnds? || e.Decrement? {
      LeftBody(s, e);
    }
  }

  lemma LeftBody(s: State, e: Event)
    requires |s.pool.clients| == 1 && Enabled(s, e) && (e.StartEnds? || e.Decrement?)
    ensures |Step(s, e).pool.clients| == 1 && Left(Step(s, e)) == Left(s) - 1
  {
    hide PT.Measure, P.Step, P.Enabled, DestructorRank;
    if e.StartEnds? {
      assert |s.ended + {s.pool.workers[e.w].task.id}| == |s.ended| + 1;
    } else {
      assert |s.decremented + {s.pool.workers[e.w].task.id}| == |s.decremented| + 1;
    }
  }

  lemma LeftPush(s: State)
    requires ClientFits(s) && Enabled(s, Push)
    ensures |Step(s, Push).pool.clients| == 1 && Left(Step(s, Push)) < Left(s)
  {
    PT.MeasurePush(s.pool, 0, s.main.i);
    hide PT.Measure;
  }

  lemma LeftNotify(s: State, woken: Option<nat>)
    requires ClientFits(s) && Enabled(s, Notify(woken))
    ensures |Step(s, Notify(woken)).pool.clients| == 1 && Left(Step(s, Notify(woken))) < Left(s)
  {
    PT.MeasureWork(s.pool, P.SubmitNotify(0, woken));
    hide PT.Measure;
  }

  /** Main's part of a worker's step: at most a blocked wait is woken. */
  lemma WorkerKeepsMainRank(s: State, p: P.Event)
    requires ClientFits(s) && Enabled(s, Worker(p))
    ensures var s' := Step(s, Worker(p)); |s'.pool.clients| == 1 && MainRank(s') == MainRank(s)
  {
    WorkerStepClients(s.pool, p);
  }

  lemma LeftWorker(s: State, p: P.Event)
    requires ClientFits(s) && Enabled(s, Worker(p))
    ensures var s' := Step(s, Worker(p));
            && |s'.pool.clients| == 1
            && (if p.WorkSpurious? then Left(s') == Left(s) + 1 else Left(s') < Left(s))
  {
    hide PT.Measure, MainRank;
    WorkerKeepsMainRank(s, p);
    if p.WorkSpurious? {
      PT.MeasureSpurious(s.pool, p.w);
    } else {
      PT.MeasureWork(s.pool, p);
    }
  }

  lemma LeftWait(s: State, e: Event)
    requires ClientFits(s) && s.pool.firstException == None && Enabled(s, e)
    requires e.CallWait? || e.TestWait? || e.WakeSpuriously?
    ensures |Step(s, e).pool.clients| == 1
    ensures if IsProgress(s, e) then Left(Step(s, e)) < Left(s) else Left(Step(s, e)) <= Left(s)
  {
    PT.MeasureOther(s.pool, PoolPart(s, e).value);
    hide PT.Measure;
  }

  /** A test of a false predicate and a spurious wake-up leave the destructor in its wait; else it gets on. */
  lemma DestructorStep(p: P.State, d: P.Event)
    requires |p.clients| == 1 && DestroyingFits(p.clients[0]) && p.firstException == None
    requires DestructorEvent(d) && P.Enabled(p, d)
    ensures var p' := P.Step(p, d);
            && |p'.clients| == 1
            && DestructorRank(p'.clients[0]) <= DestructorRank(p.clients[0])
            && (!d.DoneSpurious? && (d.WaitCheck? ==> P.Quiescent(p)) ==>
                  DestructorRank(p'.clients[0]) < DestructorRank(p.clients[0]))
  {
  }

  lemma LeftDestroy(s: State, d: P.Event)
    requires ClientFits(s) && s.pool.firstException == None && Enabled(s, Destroy(d))
    ensures |Step(s, Destroy(d)).pool.clients| == 1
    ensures var left := Left(Step(s, Destroy(d)));
            if IsProgress(s, Destroy(d)) then left < Left(s) else left <= Left(s)
  {
    PT.MeasureOther(s.pool, d);
    DestructorStep(s.pool, d);
    hide PT.Measure, P.Step, DestructorRank;
  }

  lemma LeftStep(s: State, e: Event)
    requires Inv(s) && Enabled(s, e)
    ensures |s.pool.clients| == 1 && |Step(s, e).pool.clients| == 1
    ensures Left(Step(s, e)) + (if IsProgress(s, e) then 1 else 0) <= Left(s) + if WakesWorker(e) then 1 else 0
  {
    MainAlone(s);
    hide Inv, ClientFits, Left, Step, Enabled;
    match e
    case Push => LeftPush(s);
    case Notify(woken) => LeftNotify(s, woken);
    case Worker(p) => LeftWorker(s, p);
    case CallWait => LeftWait(s, e);
    case TestWait => LeftWait(s, e);
    case WakeSpuriously => LeftWait(s, e);
    case Destroy(d) => LeftDestroy(s, d);
    case _ => LeftMain(s, e);
  }

  lemma MainAlone(s: State)
    requires Inv(s)
    ensures ClientFits(s) && StopFits(s) && |s.pool.clients| == 1 && s.pool.firstException == None
  {
  }

  // ----- and until the end there is such a step -----

  /** Main has cleared the tests and its pool's destructor has joined. */
  ghost predicate Finished(s: State)
  {
    s.main.Destroying? && |s.pool.clients| == 1 && s.pool.clients[0].Joined?
  }

  /** Steps that can be counted on: a test's start need not end before stop is raised. */
  ghost predicate Available(s: State, e: Event)
  {
    Enabled(s, e) && IsProgress(s, e) && (e.StartEnds? ==> s.stop)
  }

  /** After stop, a worker that is neither asleep nor gone can move, if need be by its test's start ending. */
  lemma WorkerMoves(s: State, w: nat) returns (e: Event)
    requires BodiesDecrement(s) && s.stop && w < |s.pool.workers|
    requires !s.pool.workers[w].Asleep? && !s.pool.workers[w].Exited?
    ensures Available(s, e)
  {
    match s.pool.workers[w]
    case Ready => e := Worker(P.TakeTask(w));
    case Erasing(_) => e := Worker(P.Erase(w));
    case Running(t) =>
      e := if t.id !in s.ended then StartEnds(w)
           else if t.id !in s.decremented then Decrement(w)
           else Worker(P.BodyReturns(w));
  }

  lemma BusyMoves(s: State) returns (e: Event)
    requires Inv(s) && s.main.Waiting? && !P.Quiescent(s.pool) && |s.pool.workers| > 0
    ensures Available(s, e)
  {
    hide PP.Inv;
    var w := PT.BusyPoolHasAwakeWorker(s.pool);
    e := WorkerMoves(s, w);
  }

  lemma QuietWaiterTests(s: State)
    requires Inv(s) && P.Quiescent(s.pool) && |s.pool.clients| == 1
    ensures !s.pool.clients[0].Blocked?
  {
  }

  lemma DestructorMoves(s: State) returns (e: Event)
    requires Inv(s) && s.main.Destroying? && !Finished(s)
    ensures Available(s, e)
  {
    hide Inv, P.Quiescent;
    MainAlone(s);
    DestroyingQuiet(s);
    QuietWaiterTests(s);
    match s.pool.clients[0]
    case Idle => e := Destroy(P.WaitBegin(0, true));
    case Checking(_) => e := Destroy(P.WaitCheck(0));
    case Stopping => e := Destroy(P.SetStopping(0));
    case NotifyingAll => e := Destroy(P.NotifyAll(0));
    case Joining =>
      if P.AllExited(s.pool.workers) {
        e := Destroy(P.Join(0));
      } else {
        e := JoinerMoves(s);
      }
  }

  lemma JoinerMoves(s: State) returns (e: Event)
    requires Inv(s) && s.stop && PT.Joins(s.pool, 0) && !P.AllExited(s.pool.workers)
    ensures Available(s, e)
  {
    hide PP.Inv, ClientFits, StopFits, OneTaskPerTest, Counted;
    PT.NobodySleeps(s.pool, 0);
    var w :| 0 <= w < |s.pool.workers| && !s.pool.workers[w].Exited?;
    e := WorkerMoves(s, w);
  }

  lemma DestroyingQuiet(s: State)
    requires Inv(s) && s.main.Destroying?
    ensures P.Quiescent(s.pool)
  {
  }

  lemma SubmitterMoves(s: State) returns (e: Event)
    requires ClientFits(s) && StopFits(s) && (s.main.Announcing? || s.main.Pushing? || s.main.Notifying?)
    ensures Available(s, e)
  {
    match s.main
    case Announcing(i) => e := if i < s.tests then Announce else LeaveLoop;
    case Pushing(_) => e := Push;
    case Notifying(_) =>
      if w :| 0 <= w < |s.pool.workers| && s.pool.workers[w].Asleep? {
        e := Notify(Some(w));
      } else {
        e := Notify(None);
      }
  }

  /** Until main has finished, some step of progress can be counted on. */
  lemma MainMoves(s: State) returns (e: Event)
    requires Inv(s) && |s.pool.workers| > 0 && !Finished(s)
    ensures Available(s, e)
  {
    hide Inv, StopFits;
    MainAlone(s);
    match s.main
    case Heartbeat => e := TimeUp;
    case RaisingStop => e := RaiseStop;
    case CallingWait => e := CallWait;
    case Clearing => e := ClearTests;
    case Destroying => e := DestructorMoves(s);
    case Waiting =>
      if P.Quiescent(s.pool) {
        QuietWaiterTests(s);
        e := TestWait;
      } else {
        e := BusyMoves(s);
      }
    case _ => e := SubmitterMoves(s);
  }

  // ----- whole runs -----

  ghost function ProgressSteps(s: State, es: seq<Event>): nat
    requires Feasible(s, es)
    decreases |es|
  {
    if es == [] then 0 else (if IsProgress(s, es[0]) then 1 else 0) + ProgressSteps(Step(s, es[0]), es[1..])
  }

  ghost function SpuriousWakeups(es: seq<Event>): nat
  {
    if es == [] then 0 else (if WakesWorker(es[0]) then 1 else 0) + SpuriousWakeups(es[1..])
  }

  lemma {:induction false} ProgressBound(s: State, es: seq<Event>)
    requires Inv(s) && Feasible(s, es)
    ensures |s.pool.clients| == 1 && ProgressSteps(s, es) <= Left(s) + SpuriousWakeups(es)
    decreases |es|
  {
    hide Inv, Left;
    LeftNonNegative(s);
    if es != [] {
      LeftStep(s, es[0]);
      InvStep(s, es[0]);
      ProgressBound(Step(s, es[0]), es[1..]);
    }
  }

  lemma {:induction false} FreshWorkersWeigh(n: nat)
    ensures Total(seq(n, _ => P.Ready), PT.Weight) == n
  {
    var ws := seq(n, _ => P.Ready);
    if n > 0 {
      FreshWorkersWeigh(n - 1);
      assert ws[..n - 1] == seq(n - 1, _ => P.Ready);
    }
  }

  lemma LeftAtStart(tests: nat, maxThreads: nat)
    ensures Left(Init(tests, maxThreads)) == 10 * tests + 2 * maxThreads + 11
  {
    FreshWorkersWeigh(maxThreads);
    var s := Init(tests, maxThreads);
    assert s.pool.clients == [P.Idle] && [P.Idle][..0] == [];
    assert s.pool.workers == seq(maxThreads, _ => P.Ready);
    assert Total([P.Idle], PP.OwesNotify) == 0 && Total([P.Idle], PT.MayBroadcast) == 1;
  }

  /**
   In every schedule main makes at most 10 steps of progress for each test, 2 for each
   worker and 11 more, and one for each spurious wake-up of a worker. Where no step of
   progress is left, not counting on a start to end before stop is raised, main has
   raised stop, cleared the tests after each had run once, and joined its pool.
   */
  lemma MainEnds(tests: nat, maxThreads: nat, es: seq<Event>)
    requires maxThreads > 0 && Feasible(Init(tests, maxThreads), es)
    ensures ProgressSteps(Init(tests, maxThreads), es) <= 10 * tests + 2 * maxThreads + 11 + SpuriousWakeups(es)
    ensures var s := Run(Init(tests, maxThreads), es);
            (forall e :: !Available(s, e)) ==>
              Finished(s) && s.stop && s.pool.h.completed == s.ended == Below(tests) && P.AllExited(s.pool.workers)
  {
    hide Inv, Left, Finished;
    Reached(tests, maxThreads, es);
    InvInit(tests, maxThreads);
    ProgressBound(Init(tests, maxThreads), es);
    LeftAtStart(tests, maxThreads);
    var s := Run(Init(tests, maxThreads), es);
    if forall e :: !Available(s, e) {
      if !Finished(s) {
        var e := MainMoves(s);
      }
      FinishedMeansDone(s);
    }
  }

  lemma FinishedMeansDone(s: State)
    requires Inv(s) && Finished(s)
    ensures s.stop && s.pool.h.completed == s.ended == Below(s.tests) && P.AllExited(s.pool.workers)
  {
    AllDone(s);
  }
}
