/**
 The main program's run, read off its events alone: what its pool is made to do is a run
 of the pool, so that whatever holds of the pool holds here, and the counts and flags are
 those of the events.
 */
module HarnessTrace {
  import opened Common
  import opened HarnessModel
  import opened HarnessProofs
  import P = PoolModel
  import PP = PoolProofs
  import PTr = PoolTrace

  // ----- what the events say -----

  ghost function Pushed(es: seq<Event>): nat
  {
    if es == [] then 0 else
    var n := |es| - 1;
    Pushed(es[..n]) + if es[n].Push? then 1 else 0
  }

  /** What an event makes the pool do; the tests are submitted in order, each as the job of its index. */
  ghost function PoolEvent(es: seq<Event>, e: Event): seq<P.Event>
  {
    match e
    case Push => [P.SubmitPush(0, Pushed(es))]
    case Notify(woken) => [P.SubmitNotify(0, woken)]
    case CallWait => [P.WaitBegin(0, false)]
    case TestWait => [P.WaitCheck(0)]
    case WakeSpuriously => [P.DoneSpurious(0)]
    case Destroy(d) => [d]
    case Worker(p) => [p]
    case _ => []
  }

  ghost function PoolEvents(es: seq<Event>): seq<P.Event>
  {
    if es == [] then [] else
    var n := |es| - 1;
    PoolEvents(es[..n]) + PoolEvent(es[..n], es[n])
  }

  /** Tests counted in, less those counted out. */
  ghost function Active(es: seq<Event>): int
  {
    if es == [] then 0 else
    var n := |es| - 1;
    Active(es[..n]) + if es[n].Announce? then 1 else if es[n].Decrement? then -1 else 0
  }

  /** The tests whose starts have ended: the one the worker took last, for each end. */
  ghost function Ended(es: seq<Event>): set<nat>
  {
    if es == [] then {} else
    var n := |es| - 1;
    Ended(es[..n]) + if es[n].StartEnds? then {PTr.Holding(PoolEvents(es[..n]), es[n].w)} else {}
  }

  ghost function CountedOut(es: seq<Event>): set<nat>
  {
    if es == [] then {} else
    var n := |es| - 1;
    CountedOut(es[..n]) + if es[n].Decrement? then {PTr.Holding(PoolEvents(es[..n]), es[n].w)} else {}
  }

  // ----- the state follows -----

  ghost predicate PoolFollows(s: State, tests: nat, maxThreads: nat, es: seq<Event>)
  {
    && s.tests == tests && s.pool.nextId == Pushed(es)
    && P.Feasible(P.Init(maxThreads, 1), PoolEvents(es))
    && s.pool == P.Run(P.Init(maxThreads, 1), PoolEvents(es))
  }

  ghost predicate CountsFollow(s: State, es: seq<Event>)
  {
    && s.active == Active(es) && (s.stop <==> RaiseStop in es)
    && s.ended == Ended(es) && s.decremented == CountedOut(es)
  }

  lemma OneMore(es: seq<Event>, e: Event)
    ensures Pushed(es + [e]) == Pushed(es) + if e.Push? then 1 else 0
    ensures PoolEvents(es + [e]) == PoolEvents(es) + PoolEvent(es, e)
    ensures Active(es + [e]) == Active(es) + if e.Announce? then 1 else if e.Decrement? then -1 else 0
    ensures Ended(es + [e]) == Ended(es) + if e.StartEnds? then {PTr.Holding(PoolEvents(es), e.w)} else {}
    ensures CountedOut(es + [e]) == CountedOut(es) + if e.Decrement? then {PTr.Holding(PoolEvents(es), e.w)} else {}
  {
    assert (es + [e])[..|es + [e]| - 1] == es;
  }

  /** What the step does to the pool is what the event says. */
  lemma PoolStepIs(s: State, es: seq<Event>, e: Event)
    requires OneTaskPerTest(s) && ClientFits(s) && s.pool.nextId == Pushed(es) && Enabled(s, e)
    ensures var d := PoolEvent(es, e);
            if d == [] then Step(s, e).pool == s.pool
            else |d| == 1 && P.Enabled(s.pool, d[0]) && Step(s, e).pool == P.Step(s.pool, d[0])
    ensures Step(s, e).pool.nextId == Pushed(es) + if e.Push? then 1 else 0
  {
  }

  lemma {:induction false} PoolRunAppend(s: P.State, ds: seq<P.Event>, d: P.Event)
    requires P.Feasible(s, ds) && P.Enabled(P.Run(s, ds), d)
    ensures P.Feasible(s, ds + [d]) && P.Run(s, ds + [d]) == P.Step(P.Run(s, ds), d)
    decreases |ds|
  {
    if ds != [] {
      assert (ds + [d])[1..] == ds[1..] + [d];
      PoolRunAppend(P.Step(s, ds[0]), ds[1..], d);
    }
  }

  lemma PoolFollowsStep(s: State, tests: nat, maxThreads: nat, es: seq<Event>, e: Event)
    requires OneTaskPerTest(s) && ClientFits(s) && PoolFollows(s, tests, maxThreads, es) && Enabled(s, e)
    ensures PoolFollows(Step(s, e), tests, maxThreads, es + [e])
  {
    OneMore(es, e);
    PoolStepIs(s, es, e);
    var d := PoolEvent(es, e);
    assert Step(s, e).tests == s.tests;
    if d == [] {
      assert PoolEvents(es) + d == PoolEvents(es);
    } else {
      assert d == [d[0]];
      PoolRunAppend(P.Init(maxThreads, 1), PoolEvents(es), d[0]);
    }
    hide P.Feasible, P.Run, PoolEvents, PoolEvent, Pushed, P.Step, P.Enabled, Step, Enabled;
  }

  /** A worker on a task is on the one it took last. */
  lemma OnLastTaken(s: State, tests: nat, maxThreads: nat, es: seq<Event>, w: nat)
    requires PoolFollows(s, tests, maxThreads, es) && OnTask(s, w)
    ensures s.pool.workers[w].task.id == PTr.Holding(PoolEvents(es), w)
  {
    PTr.StateFollows(maxThreads, 1, PoolEvents(es));
    hide PP.Inv, PTr.CountsFollow, PTr.ThrowsFollow;
    assert P.InTask(s.pool.workers[w]);
  }

  lemma CountsFollowStep(s: State, tests: nat, maxThreads: nat, es: seq<Event>, e: Event)
    requires PoolFollows(s, tests, maxThreads, es) && CountsFollow(s, es) && Enabled(s, e)
    ensures CountsFollow(Step(s, e), es + [e])
  {
    hide PoolFollows, Ended, CountedOut, Active, PoolEvents, P.Step, P.Enabled, PTr.Holding, NextMain, PoolPart;
    OneMore(es, e);
    if e.StartEnds? || e.Decrement? {
      OnLastTaken(s, tests, maxThreads, es, e.w);
    }
  }

  lemma {:induction false} RunLast(s: State, es: seq<Event>)
    requires Feasible(s, es) && es != []
    ensures var n := |es| - 1;
            Feasible(s, es[..n]) && Enabled(Run(s, es[..n]), es[n]) && Run(s, es) == Step(Run(s, es[..n]), es[n])
    decreases |es|
  {
    var n := |es| - 1;
    if n > 0 {
      RunLast(Step(s, es[0]), es[1..]);
      assert es[1..][..n - 1] == es[..n][1..];
    }
  }

  lemma PartsOfInv(s: State)
    requires Inv(s)
    ensures OneTaskPerTest(s) && ClientFits(s)
  {
  }

  ghost predicate Follows(s: State, tests: nat, maxThreads: nat, es: seq<Event>)
  {
    Inv(s) && PoolFollows(s, tests, maxThreads, es) && CountsFollow(s, es)
  }

  lemma FollowsStep(s: State, tests: nat, maxThreads: nat, es: seq<Event>, e: Event)
    requires Follows(s, tests, maxThreads, es) && Enabled(s, e)
    ensures Follows(Step(s, e), tests, maxThreads, es + [e])
  {
    hide PoolFollows, CountsFollow, Inv, OneTaskPerTest, ClientFits, Step, Enabled;
    InvStep(s, e);
    PartsOfInv(s);
    PoolFollowsStep(s, tests, maxThreads, es, e);
    CountsFollowStep(s, tests, maxThreads, es, e);
  }

  lemma FreshFollows(tests: nat, maxThreads: nat)
    ensures Follows(Init(tests, maxThreads), tests, maxThreads, [])
  {
    InvInit(tests, maxThreads);
    hide Inv;
  }

  lemma {:induction false} StateFollows(tests: nat, maxThreads: nat, es: seq<Event>)
    requires Feasible(Init(tests, maxThreads), es)
    ensures Follows(Run(Init(tests, maxThreads), es), tests, maxThreads, es)
    decreases |es|
  {
    hide Follows;
    if es == [] {
      FreshFollows(tests, maxThreads);
    } else {
      var n := |es| - 1;
      RunLast(Init(tests, maxThreads), es);
      StateFollows(tests, maxThreads, es[..n]);
      FollowsStep(Run(Init(tests, maxThreads), es[..n]), tests, maxThreads, es[..n], es[n]);
      assert es[..n] + [es[n]] == es;
    }
  }

  // ----- what it means -----

  /** Main's pool goes through a run of the pool, in which the jobs are the indices of the tests pushed, in order. */
  lemma {:induction false} PoolIsARun(tests: nat, maxThreads: nat, es: seq<Event>)
    requires Feasible(Init(tests, maxThreads), es)
    ensures P.Feasible(P.Init(maxThreads, 1), PoolEvents(es))
    ensures Run(Init(tests, maxThreads), es).pool == P.Run(P.Init(maxThreads, 1), PoolEvents(es))
    ensures PTr.Pushes(PoolEvents(es)) == seq(Pushed(es), i => i) && Pushed(es) <= tests
  {
    hide Inv, Run, Feasible, P.Run, P.Feasible, PTr.Follows;
    StateFollows(tests, maxThreads, es);
    Reached(tests, maxThreads, es);
    PTr.StateFollows(maxThreads, 1, PoolEvents(es));
    JobsInOrder(Run(Init(tests, maxThreads), es), PoolEvents(es));
  }

  lemma JobsInOrder(s: State, ds: seq<P.Event>)
    requires Inv(s) && PTr.Follows(s.pool, ds)
    ensures PTr.Pushes(ds) == seq(s.pool.nextId, i => i) && s.pool.nextId <= s.tests
  {
    PartsOfInv(s);
    hide Inv, PP.Inv, PTr.ThrowsFollow, PTr.WorkersFollow, PTr.Pushes;
    assert s.pool.h.submitted == PTr.Pushes(ds);
  }

  /** The count and the flag are those of the events, and so are the tests whose starts have ended. */
  lemma CountFollowsEvents(tests: nat, maxThreads: nat, es: seq<Event>)
    requires Feasible(Init(tests, maxThreads), es)
    ensures var s := Run(Init(tests, maxThreads), es);
            && s.active == Active(es) && (s.stop <==> RaiseStop in es)
            && s.ended == Ended(es) && s.decremented == CountedOut(es) && CountedOut(es) <= Ended(es)
  {
    StateFollows(tests, maxThreads, es);
    Reached(tests, maxThreads, es);
  }

  /** The heartbeat leaves on zero only after every test was pushed and its start has ended. */
  lemma ZeroFollowsEvents(tests: nat, maxThreads: nat, es: seq<Event>)
    requires Feasible(Init(tests, maxThreads), es) && Enabled(Run(Init(tests, maxThreads), es), SeeZero)
    ensures Pushed(es) == tests && Ended(es) == Below(tests) && Active(es) == 0
  {
    hide Inv, Run, Feasible;
    var s := Run(Init(tests, maxThreads), es);
    StateFollows(tests, maxThreads, es);
    Reached(tests, maxThreads, es);
    ZeroMeansEnded(s);
    AllPushed(s);
  }

  /** The tests are cleared only after stop was raised and the body of every test has run to its end, once. */
  lemma ClearFollowsEvents(tests: nat, maxThreads: nat, es: seq<Event>)
    requires Feasible(Init(tests, maxThreads), es) && Enabled(Run(Init(tests, maxThreads), es), ClearTests)
    ensures RaiseStop in es && Pushed(es) == tests && Ended(es) == Below(tests) && Active(es) == 0
    ensures PTr.Quiet(PoolEvents(es)) && forall i: nat :: i < tests ==> PTr.Ended(PoolEvents(es))[i] == 1
  {
    hide Inv, Run, Feasible, P.Run, P.Feasible, PTr.Quiet, P.Quiescent;
    var s := Run(Init(tests, maxThreads), es);
    StateFollows(tests, maxThreads, es);
    Reached(tests, maxThreads, es);
    ClearMeans(s);
    PoolIsARun(tests, maxThreads, es);
    QuietPool(maxThreads, PoolEvents(es));
    PTr.QuietMeansRunOnce(maxThreads, 1, PoolEvents(es));
    assert |PTr.Pushes(PoolEvents(es))| == tests;
  }

  lemma AllPushed(s: State)
    requires Inv(s) && (s.main.Heartbeat? || s.main.Clearing?)
    ensures s.pool.nextId == s.tests
  {
  }

  lemma ClearMeans(s: State)
    requires Inv(s) && s.main.Clearing?
    ensures s.stop && s.pool.nextId == s.tests && s.ended == Below(s.tests) && s.active == 0 && P.Quiescent(s.pool)
  {
    AllDone(s);
  }

  lemma QuietPool(maxThreads: nat, ds: seq<P.Event>)
    requires P.Feasible(P.Init(maxThreads, 1), ds) && P.Quiescent(P.Run(P.Init(maxThreads, 1), ds))
    ensures PTr.Quiet(ds)
  {
    PTr.StateFollows(maxThreads, 1, ds);
    PTr.QuietIff(P.Run(P.Init(maxThreads, 1), ds), ds);
  }
}
