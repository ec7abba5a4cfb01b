/**
 What the pool must do, read off the events of a run alone: the calls, the takes, the
 ends of the bodies and the tests of `wait`, in their order. Nothing here looks at the
 state a step leaves behind.
 */
module PoolTrace {
  import opened Common
  import opened PoolModel
  import opened PoolProofs

  // ----- what the events say -----

  /** The jobs submitted; the i-th one has id i. */
  ghost function Pushes(es: seq<Event>): seq<Job>
  {
    if es == [] then [] else
    var n := |es| - 1;
    Pushes(es[..n]) + if es[n].SubmitPush? then [es[n].job] else []
  }

  /** A worker's test takes a task exactly when one submitted earlier has not been taken. */
  ghost predicate Takes(es: seq<Event>, e: Event)
    decreases |es|, 1
  {
    e.TakeTask? && Taken(es) < |Pushes(es)|
  }

  ghost function Taken(es: seq<Event>): nat
    decreases |es|, 0
  {
    if es == [] then 0 else
    var n := |es| - 1;
    Taken(es[..n]) + if Takes(es[..n], es[n]) then 1 else 0
  }

  /** The id the worker took last. */
  ghost function Holding(es: seq<Event>, w: nat): nat
  {
    if es == [] then 0 else
    var n := |es| - 1;
    if Takes(es[..n], es[n]) && es[n].w == w then Taken(es[..n]) else Holding(es[..n], w)
  }

  ghost function Erased(es: seq<Event>): nat
  {
    if es == [] then 0 else
    var n := |es| - 1;
    Erased(es[..n]) + if es[n].Erase? then 1 else 0
  }

  /** Everything submitted has been taken and erased again. */
  ghost predicate Quiet(es: seq<Event>)
  {
    |Pushes(es)| == Taken(es) == Erased(es)
  }

  /** The ids whose bodies have ended, by return or by throw. */
  ghost function Ended(es: seq<Event>): multiset<nat>
  {
    if es == [] then multiset{} else
    var n := |es| - 1;
    Ended(es[..n]) + if es[n].BodyReturns? || es[n].BodyThrows? then multiset{Holding(es[..n], es[n].w)} else multiset{}
  }

  /** What the bodies threw, in the order they did. */
  ghost function Throws(es: seq<Event>): seq<Thrown>
  {
    if es == [] then [] else
    var n := |es| - 1;
    Throws(es[..n]) + if es[n].BodyThrows? then [Thrown(Holding(es[..n], es[n].w), es[n].exn)] else []
  }

  ghost function LastThrow(es: seq<Event>, w: nat): Exn
  {
    if es == [] then 0 else
    var n := |es| - 1;
    if es[n].BodyThrows? && es[n].w == w then es[n].exn else LastThrow(es[..n], w)
  }

  /** What the workers recorded, in the order they took the mutex for it. */
  ghost function Records(es: seq<Event>): seq<Thrown>
  {
    if es == [] then [] else
    var n := |es| - 1;
    Records(es[..n]) + if es[n].Record? then [Thrown(Holding(es[..n], es[n].w), LastThrow(es[..n], es[n].w))] else []
  }

  /** How many records some test of `wait` has found and dealt with: those before the last one in quiet. */
  ghost function Reported(es: seq<Event>): nat
  {
    if es == [] then 0 else
    var n := |es| - 1;
    if es[n].WaitCheck? && Quiet(es[..n]) then |Records(es[..n])| else Reported(es[..n])
  }

  // ----- the state follows -----

  /** Thrown, but not yet recorded. */
  ghost function Pending(w: Worker): multiset<Thrown>
  {
    if w.Recording? then multiset{Thrown(w.task.id, w.exn)} else multiset{}
  }

  ghost function AllPending(ws: seq<Worker>): multiset<Thrown>
  {
    if ws == [] then multiset{} else AllPending(ws[..|ws| - 1]) + Pending(ws[|ws| - 1])
  }

  lemma {:induction false} PendingUpdate(ws: seq<Worker>, w: nat, v: Worker)
    requires w < |ws|
    ensures AllPending(ws[w := v]) + Pending(ws[w]) == AllPending(ws) + Pending(v)
  {
    hide Pending;
    var n := |ws| - 1;
    var front := AllPending(ws[..n]);
    if w == n {
      assert ws[w := v][..n] == ws[..n];
      assert front + Pending(v) + Pending(ws[n]) == front + Pending(ws[n]) + Pending(v);
    } else {
      assert ws[w := v][..n] == ws[..n][w := v];
      PendingUpdate(ws[..n], w, v);
      Shuffle(AllPending(ws[..n][w := v]), Pending(ws[w]), front, Pending(v), Pending(ws[n]));
    }
  }

  lemma {:induction false} PendingSame(ws: seq<Worker>, vs: seq<Worker>)
    requires |ws| == |vs| && forall i :: 0 <= i < |ws| ==> Pending(ws[i]) == Pending(vs[i])
    ensures AllPending(ws) == AllPending(vs)
  {
    if ws != [] {
      PendingSame(ws[..|ws| - 1], vs[..|ws| - 1]);
    }
  }

  ghost predicate CountsFollow(s: State, es: seq<Event>)
  {
    && s.h.submitted == Pushes(es) && |s.h.started| == Taken(es) && |s.h.completed| == Erased(es)
    && s.h.ran == Ended(es) && s.h.recorded == Records(es) && s.h.rethrown == Reported(es)
  }

  ghost predicate WorkersFollow(s: State, es: seq<Event>)
  {
    forall w :: 0 <= w < |s.workers| && InTask(s.workers[w]) ==>
      && s.workers[w].task.id == Holding(es, w)
      && (s.workers[w].Recording? ==> s.workers[w].exn == LastThrow(es, w))
  }

  ghost predicate ThrowsFollow(s: State, es: seq<Event>)
  {
    multiset(Throws(es)) == multiset(s.h.recorded) + AllPending(s.workers)
  }

  ghost predicate Follows(s: State, es: seq<Event>)
  {
    Inv(s) && CountsFollow(s, es) && WorkersFollow(s, es) && ThrowsFollow(s, es)
  }

  lemma QuietIff(s: State, es: seq<Event>)
    requires Fifo(s) && Split(s) && CountsFollow(s, es)
    ensures Quiescent(s) <==> Quiet(es)
    ensures s.queue != [] <==> Taken(es) < |Pushes(es)|
  {
    assert |s.inProgress + s.h.completed| == |s.inProgress| + |s.h.completed|;
    assert |Below(|s.h.started|)| == |s.h.started|;
  }

  /** The functions of the events, one event further on. */
  lemma OneMore(es: seq<Event>, e: Event)
    ensures Pushes(es + [e]) == Pushes(es) + if e.SubmitPush? then [e.job] else []
    ensures Taken(es + [e]) == Taken(es) + if Takes(es, e) then 1 else 0
    ensures Erased(es + [e]) == Erased(es) + if e.Erase? then 1 else 0
    ensures Reported(es + [e]) == if e.WaitCheck? && Quiet(es) then |Records(es)| else Reported(es)
  {
    assert (es + [e])[..|es + [e]| - 1] == es;
  }

  lemma OneMoreBody(es: seq<Event>, e: Event)
    ensures Ended(es + [e]) ==
            Ended(es) + if e.BodyReturns? || e.BodyThrows? then multiset{Holding(es, e.w)} else multiset{}
    ensures Throws(es + [e]) == Throws(es) + if e.BodyThrows? then [Thrown(Holding(es, e.w), e.exn)] else []
    ensures Records(es + [e]) ==
            Records(es) + if e.Record? then [Thrown(Holding(es, e.w), LastThrow(es, e.w))] else []
  {
    assert (es + [e])[..|es + [e]| - 1] == es;
  }

  lemma OneMoreHeld(es: seq<Event>, e: Event, w: nat)
    ensures Holding(es + [e], w) == if Takes(es, e) && e.w == w then Taken(es) else Holding(es, w)
    ensures LastThrow(es + [e], w) == if e.BodyThrows? && e.w == w then e.exn else LastThrow(es, w)
  {
    assert (es + [e])[..|es + [e]| - 1] == es;
  }

  /** Where a worker on a task comes from. */
  lemma WorkerStep(s: State, e: Event, w: nat)
    requires Enabled(s, e) && w < |s.workers| && InTask(Step(s, e).workers[w])
    ensures InTask(s.workers[w]) || (e == TakeTask(w) && s.queue != [])
    ensures e == TakeTask(w) && s.queue != [] ==> Step(s, e).workers[w] == Running(s.queue[0])
    ensures !(e == TakeTask(w) && s.queue != []) ==> Step(s, e).workers[w].task == s.workers[w].task
    ensures Step(s, e).workers[w].Recording? ==>
              if e.BodyThrows? && e.w == w then Step(s, e).workers[w].exn == e.exn
              else Step(s, e).workers[w] == s.workers[w]
  {
  }

  lemma WorkersFollowStep(s: State, es: seq<Event>, e: Event)
    requires Fifo(s) && Split(s) && CountsFollow(s, es) && WorkersFollow(s, es) && Enabled(s, e)
    ensures WorkersFollow(Step(s, e), es + [e])
  {
    QuietIff(s, es);
    var s' := Step(s, e);
    WorkersStay(s, e);
    if s.queue != [] {
      HeadId(s);
    }
    hide Fifo, Split, Step, Enabled, Holding, LastThrow, Pushes, Taken, Quiet, Ended, Records, Reported, Erased;
    forall w | 0 <= w < |s'.workers| && InTask(s'.workers[w])
      ensures s'.workers[w].task.id == Holding(es + [e], w)
      ensures s'.workers[w].Recording? ==> s'.workers[w].exn == LastThrow(es + [e], w)
    {
      WorkerFollowsStep(s, es, e, w);
    }
  }

  lemma WorkersStay(s: State, e: Event)
    requires Enabled(s, e)
    ensures |Step(s, e).workers| == |s.workers|
  {
  }

  lemma WorkerFollowsStep(s: State, es: seq<Event>, e: Event, w: nat)
    requires WorkersFollow(s, es) && Enabled(s, e) && w < |s.workers| && InTask(Step(s, e).workers[w])
    requires s.queue != [] <==> Taken(es) < |Pushes(es)|
    requires s.queue != [] ==> s.queue[0].id == Taken(es)
    ensures Step(s, e).workers[w].task.id == Holding(es + [e], w)
    ensures Step(s, e).workers[w].Recording? ==> Step(s, e).workers[w].exn == LastThrow(es + [e], w)
  {
    OneMoreHeld(es, e, w);
    WorkerStep(s, e, w);
    hide Step, Taken, Pushes, Holding, LastThrow;
  }

  /** How far a step moves the history's counts. */
  ghost predicate CountsMove(s: State, e: Event, h': History)
  {
    && h'.submitted == s.h.submitted + (if e.SubmitPush? then [e.job] else [])
    && |h'.started| == |s.h.started| + (if e.TakeTask? && s.queue != [] then 1 else 0)
    && |h'.completed| == |s.h.completed| + (if e.Erase? then 1 else 0)
    && h'.rethrown == (if e.WaitCheck? && Quiescent(s) then |s.h.recorded| else s.h.rethrown)
  }

  lemma CountsStep(s: State, e: Event)
    requires OwnTasks(s) && Exceptions(s) && Enabled(s, e)
    ensures CountsMove(s, e, Step(s, e).h)
  {
    if e.Erase? {
      EraseCounts(s, e.w);
    } else if e.WaitCheck? {
      WaitReports(s, e.c);
    } else {
      CountsStepOther(s, e);
    }
    hide Exceptions, OwnTasks, CountsMove;
  }

  lemma CountsStepOther(s: State, e: Event)
    requires Enabled(s, e) && !e.Erase? && !e.WaitCheck?
    ensures CountsMove(s, e, Step(s, e).h)
  {
  }

  lemma EraseCounts(s: State, w: nat)
    requires OwnTasks(s) && Enabled(s, Erase(w))
    ensures CountsMove(s, Erase(w), Step(s, Erase(w)).h)
  {
    assert InTask(s.workers[w]);
  }

  lemma WaitReports(s: State, c: nat)
    requires Exceptions(s) && Enabled(s, WaitCheck(c))
    ensures CountsMove(s, WaitCheck(c), Step(s, WaitCheck(c)).h)
  {
  }

  lemma BodiesStep(s: State, e: Event)
    requires Enabled(s, e)
    ensures var h, h' := s.h, Step(s, e).h;
            && h'.ran == h.ran
               + (if e.BodyReturns? || e.BodyThrows? then multiset{s.workers[e.w].task.id} else multiset{})
            && h'.recorded == h.recorded
               + if e.Record? then [Thrown(s.workers[e.w].task.id, s.workers[e.w].exn)] else []
  {
  }

  lemma OnTaskThen(s: State, e: Event)
    requires Enabled(s, e) && (e.BodyReturns? || e.BodyThrows? || e.Record?)
    ensures WorkerAt(s, e.w) && InTask(s.workers[e.w]) && (e.Record? ==> s.workers[e.w].Recording?)
  {
  }

  lemma CountsFollowStep(s: State, es: seq<Event>, e: Event)
    requires Fifo(s) && OwnTasks(s) && Split(s) && Exceptions(s)
    requires CountsFollow(s, es) && WorkersFollow(s, es) && Enabled(s, e)
    ensures CountsFollow(Step(s, e), es + [e])
  {
    TestsFollowStep(s, es, e);
    BodiesFollowStep(s, es, e);
    hide Fifo, OwnTasks, Split, Exceptions, WorkersFollow, Step, Enabled;
    hide Pushes, Taken, Erased, Reported, Ended, Records;
  }

  lemma TestsFollowStep(s: State, es: seq<Event>, e: Event)
    requires Fifo(s) && OwnTasks(s) && Split(s) && Exceptions(s) && CountsFollow(s, es) && Enabled(s, e)
    ensures var h, es' := Step(s, e).h, es + [e];
            && h.submitted == Pushes(es') && |h.started| == Taken(es') && |h.completed| == Erased(es')
            && h.rethrown == Reported(es')
  {
    QuietIff(s, es);
    OneMore(es, e);
    CountsStep(s, e);
    hide Fifo, OwnTasks, Split, Exceptions, Step, Enabled, Quiet, Quiescent, Pushes, Taken, Erased, Reported, Records;
  }

  lemma BodiesFollowStep(s: State, es: seq<Event>, e: Event)
    requires CountsFollow(s, es) && WorkersFollow(s, es) && Enabled(s, e)
    ensures Step(s, e).h.ran == Ended(es + [e]) && Step(s, e).h.recorded == Records(es + [e])
  {
    OneMoreBody(es, e);
    BodiesStep(s, e);
    if e.BodyReturns? || e.BodyThrows? || e.Record? {
      OnTaskThen(s, e);
    }
    hide Step, Enabled, Ended, Records, Holding, LastThrow;
  }

  lemma PendingStep(s: State, e: Event)
    requires Enabled(s, e)
    ensures var s' := Step(s, e);
            if e.BodyThrows? then
              AllPending(s'.workers) == AllPending(s.workers) + multiset{Thrown(s.workers[e.w].task.id, e.exn)}
            else if e.Record? then
              AllPending(s'.workers) + multiset{Thrown(s.workers[e.w].task.id, s.workers[e.w].exn)}
              == AllPending(s.workers)
            else AllPending(s'.workers) == AllPending(s.workers)
  {
    var s' := Step(s, e);
    if ByWorker(e) {
      OneWorkerStep(s, e);
      PendingUpdate(s.workers, e.w, s'.workers[e.w]);
      PlusNothing(AllPending(s.workers));
      PlusNothing(AllPending(s'.workers));
    } else {
      ClientStepPending(s, e);
      PendingSame(s.workers, s'.workers);
    }
    hide Step, AllPending, Pending;
  }

  lemma OneWorkerStep(s: State, e: Event)
    requires Enabled(s, e) && ByWorker(e)
    ensures var ws, ws' := s.workers, Step(s, e).workers;
            && |ws'| == |ws| && ws' == ws[e.w := ws'[e.w]]
            && Pending(ws'[e.w]) == (if e.BodyThrows? then multiset{Thrown(ws[e.w].task.id, e.exn)} else multiset{})
            && Pending(ws[e.w]) == (if e.Record? then multiset{Thrown(ws[e.w].task.id, ws[e.w].exn)} else multiset{})
  {
    var ws, ws' := s.workers, Step(s, e).workers;
    match e
    case TakeTask(w) => assert ws' == ws[w := ws'[w]];
    case BodyReturns(w) => assert ws' == ws[w := ws'[w]];
    case BodyThrows(w, _) => assert ws' == ws[w := ws'[w]];
    case Record(w) => assert ws' == ws[w := ws'[w]];
    case Erase(w) => assert ws' == ws[w := ws'[w]];
    case WorkSpurious(w) => assert ws' == ws[w := ws'[w]];
  }

  lemma ClientStepPending(s: State, e: Event)
    requires Enabled(s, e) && !ByWorker(e)
    ensures var ws, ws' := s.workers, Step(s, e).workers;
            |ws'| == |ws| && forall i :: 0 <= i < |ws| ==> Pending(ws[i]) == Pending(ws'[i])
  {
    hide Observe;
  }

  lemma PlusNothing<T>(m: multiset<T>)
    ensures m + multiset{} == m
  {
  }

  lemma Moved<T>(t: multiset<T>, r: multiset<T>, p: multiset<T>, x: multiset<T>)
    ensures t == r + p ==> t + x == r + (p + x)
    ensures t == r + (p + x) ==> t == (r + x) + p
  {
  }

  lemma ThrowsFollowStep(s: State, es: seq<Event>, e: Event)
    requires WorkersFollow(s, es) && ThrowsFollow(s, es) && Enabled(s, e)
    ensures ThrowsFollow(Step(s, e), es + [e])
  {
    OneMoreBody(es, e);
    BodiesStep(s, e);
    PendingStep(s, e);
    var t, r, p := multiset(Throws(es)), multiset(s.h.recorded), AllPending(s.workers);
    if e.BodyThrows? || e.Record? {
      OnTaskThen(s, e);
      var x := Thrown(s.workers[e.w].task.id, if e.Record? then s.workers[e.w].exn else e.exn);
      Moved(t, r, if e.Record? then AllPending(Step(s, e).workers) else p, multiset{x});
      hide Step, Enabled, Throws, Records, AllPending, Ended, Holding, LastThrow;
      if e.Record? {
        assert multiset(Step(s, e).h.recorded) == r + multiset{x};
      } else {
        assert multiset(Throws(es + [e])) == t + multiset{x};
      }
    } else {
      hide Step, Enabled, Throws, Records, AllPending, Ended, Holding, LastThrow;
      assert multiset(Throws(es + [e])) == t && multiset(Step(s, e).h.recorded) == r;
    }
  }

  lemma FollowsStep(s: State, es: seq<Event>, e: Event)
    requires Follows(s, es) && Enabled(s, e)
    ensures Follows(Step(s, e), es + [e])
  {
    hide Exceptions, Fifo, OwnTasks, Split, RanOnce, NoLostWakeup, NoLostCompletion, ExitedDrained, BroadcastHeard;
    hide CountsFollow, WorkersFollow, ThrowsFollow, Step, Enabled;
    InvStep(s, e);
    CountsFollowStep(s, es, e);
    WorkersFollowStep(s, es, e);
    ThrowsFollowStep(s, es, e);
  }

  lemma {:induction false} RunLast(s: State, es: seq<Event>)
    requires Feasible(s, es) && es != []
    ensures var n := |es| - 1;
            Feasible(s, es[..n]) && Enabled(Run(s, es[..n]), es[n]) && Run(s, es) == Step(Run(s, es[..n]), es[n])
    decreases |es|
  {
    var n := |es| - 1;
    if n > 0 {
      RunLast(Step(s, es[0]), es[1..]);
      assert es[1..][..n - 1] == es[..n][1..];
    }
  }

  lemma {:induction false} FreshFollows(workers: nat, clients: nat)
    ensures Follows(Init(workers, clients), [])
  {
    InvInit(workers, clients);
    NothingPending(Init(workers, clients).workers);
  }

  lemma {:induction false} NothingPending(ws: seq<Worker>)
    requires forall i :: 0 <= i < |ws| ==> !ws[i].Recording?
    ensures AllPending(ws) == multiset{}
  {
    if ws != [] {
      NothingPending(ws[..|ws| - 1]);
    }
  }

  lemma {:induction false} StateFollows(workers: nat, clients: nat, es: seq<Event>)
    requires Feasible(Init(workers, clients), es)
    ensures Follows(Run(Init(workers, clients), es), es)
    decreases |es|
  {
    hide Follows;
    if es == [] {
      FreshFollows(workers, clients);
    } else {
      var n := |es| - 1;
      RunLast(Init(workers, clients), es);
      StateFollows(workers, clients, es[..n]);
      FollowsStep(Run(Init(workers, clients), es[..n]), es[..n], es[n]);
      assert es[..n] + [es[n]] == es;
    }
  }

  // ----- what users see -----

  /** Queued are the jobs from that id on, each under its id, in order. */
  ghost predicate QueuedFrom(queue: seq<QueuedTask>, jobs: seq<Job>, from: nat)
  {
    && |queue| + from == |jobs|
    && forall i :: 0 <= i < |queue| ==> queue[i] == QueuedTask(from + i, jobs[from + i])
  }

  /** A worker on a task runs the job of that id. */
  ghost predicate RunsJob(w: Worker, jobs: seq<Job>, id: nat)
  {
    InTask(w) ==> id < |jobs| && w.task == QueuedTask(id, jobs[id])
  }

  lemma QueueOfFifo(s: State)
    requires Fifo(s)
    ensures QueuedFrom(s.queue, s.h.submitted, |s.h.started|)
  {
  }

  lemma JobOfWorker(s: State, w: nat)
    requires Fifo(s) && OwnTasks(s) && w < |s.workers|
    ensures InTask(s.workers[w]) ==> RunsJob(s.workers[w], s.h.submitted, s.workers[w].task.id)
  {
  }

  lemma TasksFollow(s: State, es: seq<Event>)
    requires Follows(s, es)
    ensures QueuedFrom(s.queue, Pushes(es), Taken(es))
    ensures forall w :: 0 <= w < |s.workers| ==> RunsJob(s.workers[w], Pushes(es), Holding(es, w))
  {
    QueueOfFifo(s);
    forall w | 0 <= w < |s.workers| ensures RunsJob(s.workers[w], Pushes(es), Holding(es, w)) {
      JobOfWorker(s, w);
    }
    hide Fifo, OwnTasks, Split, RanOnce, Exceptions, NoLostWakeup, NoLostCompletion, ExitedDrained, BroadcastHeard;
    hide ThrowsFollow, QueuedFrom, Pushes, Taken, Holding, Ended, Records, Reported, Erased;
  }

  /** Queued are exactly the submitted jobs not yet taken, in order; a worker on a task runs the job it took. */
  lemma TasksFollowCalls(workers: nat, clients: nat, es: seq<Event>)
    requires Feasible(Init(workers, clients), es)
    ensures var s := Run(Init(workers, clients), es);
            && QueuedFrom(s.queue, Pushes(es), Taken(es))
            && forall w :: 0 <= w < |s.workers| ==> RunsJob(s.workers[w], Pushes(es), Holding(es, w))
  {
    StateFollows(workers, clients, es);
    hide Run, Feasible, Follows;
    TasksFollow(Run(Init(workers, clients), es), es);
  }

  /** In quiet, the body of every submitted task has ended exactly once, and of no other. */
  lemma QuietMeansRunOnce(workers: nat, clients: nat, es: seq<Event>)
    requires Feasible(Init(workers, clients), es) && Quiet(es)
    ensures forall id: nat :: Ended(es)[id] == if id < |Pushes(es)| then 1 else 0
  {
    StateFollows(workers, clients, es);
    var s := Run(Init(workers, clients), es);
    QuietIff(s, es);
    forall id: nat ensures Ended(es)[id] == if id < |Pushes(es)| then 1 else 0 {
      assert id < |Pushes(es)| ==> id in Below(|s.h.started|);
    }
  }

  /**
   What a test of `wait` finds, for every run. It blocks exactly until everything
   submitted has been taken and erased. Then all that was thrown has been recorded, each
   exception once, and the test rethrows the first record that no earlier test dealt
   with, or returns if the bodies have thrown nothing since.
   */
  lemma WaitFollowsThrows(workers: nat, clients: nat, es: seq<Event>)
    requires Feasible(Init(workers, clients), es)
    ensures Reported(es) <= |Records(es)|
    ensures Quiet(es) ==> multiset(Throws(es)) == multiset(Records(es)) && |Throws(es)| == |Records(es)|
    ensures Observe(Run(Init(workers, clients), es)) ==
            if !Quiet(es) then Blocks
            else if Reported(es) == |Throws(es)| then Returns
            else Rethrows(Records(es)[Reported(es)].exn)
  {
    StateFollows(workers, clients, es);
    var s := Run(Init(workers, clients), es);
    QuietIff(s, es);
    if Quiet(es) {
      forall w | 0 <= w < |s.workers| ensures !InTask(s.workers[w]) {
        HolderInProgress(s, w);
      }
      NothingPending(s.workers);
      assert |multiset(Throws(es))| == |Throws(es)| && |multiset(Records(es))| == |Records(es)|;
    }
  }

  lemma Single<T>(a: seq<T>, b: seq<T>)
    requires |a| == |b| == 1
    ensures multiset(a) == multiset(b) ==> a[0] == b[0]
  {
    assert a == [a[0]] && b == [b[0]];
    assert b[0] in multiset(b);
    assert multiset(a) == multiset{a[0]};
  }

  /** If just one body has thrown, the first test of `wait` in quiet rethrows what it threw. */
  lemma OneThrowIsRethrown(workers: nat, clients: nat, es: seq<Event>)
    requires Feasible(Init(workers, clients), es) && Quiet(es) && |Throws(es)| == 1 && Reported(es) == 0
    ensures Observe(Run(Init(workers, clients), es)) == Rethrows(Throws(es)[0].exn)
  {
    WaitFollowsThrows(workers, clients, es);
    Single(Throws(es), Records(es));
    hide Feasible, Run, Observe, Quiet, Records, Throws, Reported;
  }
}
