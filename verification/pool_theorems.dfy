/** What a user of the pool gets, for every schedule. */
module PoolTheorems {
  import opened Common
  import opened PoolModel
  import opened PoolProofs

  // ----- exactly once, in order -----

  ghost function HoldsTask(w: Worker): nat
  {
    if InTask(w) then 1 else 0
  }

  lemma TaskIdsLast(ws: seq<Worker>, n: nat)
    requires |ws| == n + 1
    ensures TaskIds(ws) == TaskIds(ws[..n]) + (if InTask(ws[n]) then {ws[n].task.id} else {})
  {
    forall id | id in TaskIds(ws[..n]) ensures id in TaskIds(ws) {
      var i :| 0 <= i < n && InTask(ws[..n][i]) && ws[..n][i].task.id == id;
      assert ws[i].task.id == id;
    }
    forall id | id in TaskIds(ws) && (InTask(ws[n]) ==> id != ws[n].task.id) ensures id in TaskIds(ws[..n]) {
      var i :| 0 <= i < |ws| && InTask(ws[i]) && ws[i].task.id == id;
      assert ws[..n][i].task.id == id;
    }
    if InTask(ws[n]) {
      assert ws[n].task.id in TaskIds(ws);
    }
  }

  /** Distinct ids: as many held ids as workers holding a task. */
  lemma {:induction false} HeldCount(ws: seq<Worker>)
    requires forall i, j :: 0 <= i < j < |ws| && InTask(ws[i]) && InTask(ws[j]) ==> ws[i].task.id != ws[j].task.id
    ensures |TaskIds(ws)| == Total(ws, HoldsTask) <= |ws|
  {
    if ws == [] {
      assert TaskIds(ws) == {};
    } else {
      var n := |ws| - 1;
      HeldCount(ws[..n]);
      TaskIdsLast(ws, n);
      if InTask(ws[n]) {
        assert ws[n].task.id !in TaskIds(ws[..n]);
      }
    }
  }

  lemma {:induction false} ThreadsStay(s: State, es: seq<Event>)
    requires Feasible(s, es)
    ensures |Run(s, es).workers| == |s.workers| && |Run(s, es).clients| == |s.clients|
    decreases |es|
  {
    if es != [] {
      ThreadsStay(Step(s, es[0]), es[1..]);
    }
  }

  /** A task is taken at most once, its body runs at most once, and tasks are taken in submission order. */
  lemma ExactlyOnceInOrder(workers: nat, clients: nat, es: seq<Event>)
    requires Feasible(Init(workers, clients), es)
    ensures var s := Run(Init(workers, clients), es);
            && |s.h.started| + |s.queue| == |s.h.submitted| == s.nextId
            && (forall i :: 0 <= i < s.nextId ==> (s.h.started + s.queue)[i] == QueuedTask(i, s.h.submitted[i]))
            && s.inProgress !! s.h.completed
            && s.inProgress + s.h.completed == Below(|s.h.started|)
            && |s.inProgress| == Total(s.workers, HoldsTask) <= workers
            && (forall id: nat :: s.h.ran[id] <= 1)
            && (forall id: nat :: id in s.h.completed ==> s.h.ran[id] == 1)
            && (forall id: nat :: id >= |s.h.started| ==> s.h.ran[id] == 0)
  {
    InvInit(workers, clients);
    InvRun(Init(workers, clients), es);
    ThreadsStay(Init(workers, clients), es);
    var s := Run(Init(workers, clients), es);
    HeldCount(s.workers);
    forall id: nat ensures s.h.ran[id] <= 1 {
      if id < |s.h.started| && id !in s.h.completed {
        assert id in Below(|s.h.started|);
        assert id in TaskIds(s.workers);
        var i :| 0 <= i < |s.workers| && InTask(s.workers[i]) && s.workers[i].task.id == id;
      }
    }
  }

  // ----- no lost wake-up -----

  /** A queued task never waits on sleeping workers alone, unless the notify for it is still to come. */
  lemma QueuedWorkHasAwakeWorker(s: State) returns (w: nat)
    requires Inv(s) && s.queue != [] && |s.workers| > 0
    requires forall c :: 0 <= c < |s.clients| ==> !s.clients[c].Notifying?
    ensures w < |s.workers| && !s.workers[w].Asleep? && !s.workers[w].Exited?
  {
    if NobodyAsleep(s.workers) {
      w := 0;
    } else {
      if Total(s.clients, OwesNotify) > 0 {
        var c := TotalWitness(s.clients, OwesNotify);
      }
      w := TotalWitness(s.workers, IsReady);
    }
  }

  /**
   In every reachable state a worker sleeps only if each queued task is covered by a
   worker about to test or by an owed notify; so once the notifies are out, queued work
   has a worker that is not asleep.
   */
  lemma WorkConserved(s: State)
    requires Reachable(s)
    ensures NobodyAsleep(s.workers) || |s.queue| <= Total(s.workers, IsReady) + Total(s.clients, OwesNotify)
    ensures s.queue != [] && |s.workers| > 0 && Total(s.clients, OwesNotify) == 0 ==>
              exists w :: 0 <= w < |s.workers| && !s.workers[w].Asleep? && !s.workers[w].Exited?
  {
    ReachableInv(s);
    if s.queue != [] && |s.workers| > 0 && Total(s.clients, OwesNotify) == 0 {
      if c :| 0 <= c < |s.clients| && s.clients[c].Notifying? {
        TotalUpdate(s.clients, c, Idle, OwesNotify);
      }
      var w := QueuedWorkHasAwakeWorker(s);
    }
  }

  // ----- the meaning of wait -----

  /** When `wait` sees its predicate true, every task submitted so far has run once and recorded what it threw. */
  lemma WaitSeesAllDone(s: State)
    requires Reachable(s) && Quiescent(s)
    ensures s.h.completed == Below(s.nextId)
    ensures |s.h.started| == |s.h.submitted| == s.nextId
    ensures forall id: nat :: id < s.nextId ==>
              s.h.ran[id] == 1 && s.h.started[id] == QueuedTask(id, s.h.submitted[id]) && id in s.h.outcome
    ensures forall id: nat, exn: Exn :: id < s.nextId ==>
              (id in s.h.outcome && s.h.outcome[id] == Some(exn) <==> Thrown(id, exn) in s.h.recorded)
  {
    ReachableInv(s);
    forall id: nat | id < s.nextId
      ensures s.h.ran[id] == 1 && s.h.started[id] == QueuedTask(id, s.h.submitted[id]) && id in s.h.outcome
    {
      assert id in Below(|s.h.started|);
    }
    forall id: nat, exn: Exn | id < s.nextId
      ensures id in s.h.outcome && s.h.outcome[id] == Some(exn) <==> Thrown(id, exn) in s.h.recorded
    {
      assert id in Below(|s.h.started|);
      CompletedRecorded(s, id, exn);
    }
  }

  lemma CompletedRecorded(s: State, id: nat, exn: Exn)
    requires Exceptions(s) && id in s.h.completed
    ensures id in s.h.outcome && s.h.outcome[id] == Some(exn) <==> Thrown(id, exn) in s.h.recorded
  {
    assert HasRecorded(s.h, id);
    var r := Thrown(id, exn);
    assert r in s.h.recorded ==> s.h.outcome[r.id] == Some(r.exn);
  }

  /**
   `wait` rethrows exactly the first exception recorded since the last rethrow and
   forgets the others; with none recorded it returns; with work left it blocks.
   */
  lemma WaitRethrowsFirst(s: State, c: nat)
    requires Reachable(s) && Enabled(s, WaitCheck(c))
    ensures s.h.rethrown <= |s.h.recorded|
    ensures var unreported := s.h.recorded[s.h.rethrown..];
            Observe(s) == if !Quiescent(s) then Blocks
                          else if unreported == [] then Returns
                          else Rethrows(unreported[0].exn)
    ensures Quiescent(s) ==> var s' := Step(s, WaitCheck(c));
                             s'.firstException == None && s'.h.rethrown == |s'.h.recorded| == |s.h.recorded|
  {
    ReachableInv(s);
  }

  /** A spurious wake-up in `wait` leads to a re-test, which blocks again while work remains. */
  lemma SpuriousIsHarmless(s: State, c: nat)
    requires ClientAt(s, c) && s.clients[c].Blocked? && !Quiescent(s)
    ensures Feasible(s, [DoneSpurious(c), WaitCheck(c)]) && Run(s, [DoneSpurious(c), WaitCheck(c)]) == s
  {
    var es := [DoneSpurious(c), WaitCheck(c)];
    assert es[1..] == [WaitCheck(c)] && [WaitCheck(c)][1..] == [];
    var s1 := Step(s, DoneSpurious(c));
    assert Observe(s1) == Blocks;
    assert Step(s1, WaitCheck(c)) == s1.(clients := s1.clients[c := s.clients[c]]);
    assert s1.clients[c := s.clients[c]] == s.clients;
    assert Run(s1, [WaitCheck(c)]) == Step(s1, WaitCheck(c)) == s;
  }

  predicate OfClient(e: Event, c: nat)
  {
    !ByWorker(e) && e.c == c
  }

  lemma {:induction false} TerminatedForGood(s: State, es: seq<Event>, c: nat)
    requires ClientAt(s, c) && s.clients[c].Terminated? && Feasible(s, es)
    ensures forall i :: 0 <= i < |es| ==> !OfClient(es[i], c)
    decreases |es|
  {
    if es != [] {
      TerminatedForGood(Step(s, es[0]), es[1..], c);
    }
  }

  /** A destructor whose wait rethrows ends there, in every schedule: it never sets stopping, notifies or joins. */
  lemma RethrowInDestructorTerminates(s: State, es: seq<Event>, c: nat)
    requires ClientAt(s, c) && s.clients[c] == Checking(true) && Observe(s).Rethrows?
    requires Feasible(s, [WaitCheck(c)] + es)
    ensures forall i :: 0 <= i < |es| ==> !OfClient(es[i], c)
  {
    assert ([WaitCheck(c)] + es)[1..] == es;
    TerminatedForGood(Step(s, WaitCheck(c)), es, c);
  }

  // ----- draining -----

  ghost function Weight(w: Worker): nat
  {
    match w
    case Asleep => 0
    case Exited => 0
    case Ready => 1
    case Erasing(_) => 2
    case Recording(_, _) => 3
    case Running(_) => 4
  }

  /** A client that may still broadcast to the workers. */
  ghost function MayBroadcast(c: Client): nat
  {
    if c.Joining? || c.Joined? || c.Terminated? then 0 else 1
  }

  /** Work left: queued tasks, owed notifies, what workers have begun, a wake-up of all for each broadcast to come. */
  ghost function Measure(s: State): nat
  {
    4 * |s.queue| + 2 * Total(s.clients, OwesNotify) + Total(s.workers, Weight)
    + |s.workers| * Total(s.clients, MayBroadcast)
  }

  /** The steps of workers and of submitters that still owe a notify. */
  predicate IsWork(e: Event)
  {
    e.TakeTask? || e.BodyReturns? || e.BodyThrows? || e.Record? || e.Erase? || e.SubmitNotify?
  }

  ghost predicate NoSubmits(es: seq<Event>)
  {
    forall i :: 0 <= i < |es| ==> !es[i].SubmitPush?
  }

  ghost function WorkSteps(es: seq<Event>): nat
  {
    if es == [] then 0 else (if IsWork(es[0]) then 1 else 0) + WorkSteps(es[1..])
  }

  ghost function SpuriousWakeups(es: seq<Event>): nat
  {
    if es == [] then 0 else (if es[0].WorkSpurious? then 1 else 0) + SpuriousWakeups(es[1..])
  }

  lemma MeasureNotify(s: State, c: nat, woken: Option<nat>)
    requires Enabled(s, SubmitNotify(c, woken))
    ensures Measure(Step(s, SubmitNotify(c, woken))) < Measure(s)
  {
    TotalUpdate(s.clients, c, Idle, OwesNotify);
    TotalUpdate(s.clients, c, Idle, MayBroadcast);
    if woken.Some? {
      TotalUpdate(s.workers, woken.value, Ready, Weight);
    }
  }

  lemma MeasureWorker(s: State, e: Event)
    requires Enabled(s, e) && IsWork(e) && !e.SubmitNotify?
    ensures Measure(Step(s, e)) < Measure(s)
  {
    var s' := Step(s, e);
    TotalUpdate(s.workers, e.w, s'.workers[e.w], Weight);
    TotalCongruent(s.clients, s'.clients, OwesNotify);
    TotalCongruent(s.clients, s'.clients, MayBroadcast);
  }

  lemma MeasureWork(s: State, e: Event)
    requires Enabled(s, e) && IsWork(e)
    ensures Measure(Step(s, e)) < Measure(s)
  {
    hide Measure;
    if e.SubmitNotify? {
      MeasureNotify(s, e.c, e.woken);
    } else {
      MeasureWorker(s, e);
    }
  }

  lemma {:induction false} WakingAllWeighs(ws: seq<Worker>)
    ensures Total(WakeAllWorkers(ws), Weight) <= Total(ws, Weight) + |ws|
  {
    if ws != [] {
      var n := |ws| - 1;
      assert WakeAllWorkers(ws)[..n] == WakeAllWorkers(ws[..n]);
      WakingAllWeighs(ws[..n]);
    }
  }

  lemma ProductNext(n: nat, a: nat)
    ensures n * (a + 1) == n * a + n
  {
  }

  lemma ProductMonotone(n: nat, a: nat, b: nat)
    requires a <= b
    ensures n * a <= n * b
  {
  }

  /** The broadcast wakes everybody, which its client had been counted for. */
  lemma MeasureBroadcast(s: State, c: nat)
    requires Enabled(s, NotifyAll(c))
    ensures Measure(Step(s, NotifyAll(c))) <= Measure(s)
  {
    var s' := Step(s, NotifyAll(c));
    TotalUpdate(s.clients, c, Joining, OwesNotify);
    TotalUpdate(s.clients, c, Joining, MayBroadcast);
    WakingAllWeighs(s.workers);
    hide Total, WakeAllWorkers;
    ProductNext(|s.workers|, Total(s'.clients, MayBroadcast));
    assert Total(s.clients, MayBroadcast) == Total(s'.clients, MayBroadcast) + 1;
  }

  lemma MeasureOther(s: State, e: Event)
    requires Enabled(s, e) && !e.SubmitPush? && !IsWork(e)
    ensures Measure(Step(s, e)) <= Measure(s) + if e.WorkSpurious? then 1 else 0
  {
    hide Measure;
    if e.NotifyAll? {
      MeasureBroadcast(s, e.c);
    } else if e.WorkSpurious? {
      MeasureSpurious(s, e.w);
    } else {
      MeasureClient(s, e);
    }
  }

  lemma MeasureSpurious(s: State, w: nat)
    requires Enabled(s, WorkSpurious(w))
    ensures Measure(Step(s, WorkSpurious(w))) == Measure(s) + 1
  {
    TotalUpdate(s.workers, w, Ready, Weight);
  }

  lemma ClientMoves(s: State, e: Event)
    requires Enabled(s, e) && !ByWorker(e) && !e.SubmitPush? && !e.SubmitNotify? && !e.NotifyAll?
    ensures var s' := Step(s, e);
            && s'.queue == s.queue && s'.workers == s.workers && e.c < |s.clients| == |s'.clients|
            && s'.clients == s.clients[e.c := s'.clients[e.c]]
            && OwesNotify(s'.clients[e.c]) <= OwesNotify(s.clients[e.c])
            && MayBroadcast(s'.clients[e.c]) <= MayBroadcast(s.clients[e.c])
  {
  }

  lemma MeasureClient(s: State, e: Event)
    requires Enabled(s, e) && !ByWorker(e) && !e.SubmitPush? && !e.SubmitNotify? && !e.NotifyAll?
    ensures Measure(Step(s, e)) <= Measure(s)
  {
    var s' := Step(s, e);
    ClientMoves(s, e);
    hide Step, Enabled, OwesNotify, MayBroadcast, Weight;
    TotalUpdate(s.clients, e.c, s'.clients[e.c], OwesNotify);
    TotalUpdate(s.clients, e.c, s'.clients[e.c], MayBroadcast);
    ProductMonotone(|s.workers|, Total(s'.clients, MayBroadcast), Total(s.clients, MayBroadcast));
  }

  lemma MeasurePush(s: State, c: nat, job: Job)
    requires Enabled(s, SubmitPush(c, job))
    ensures Measure(Step(s, SubmitPush(c, job))) == Measure(s) + 6
  {
    TotalUpdate(s.clients, c, Notifying, OwesNotify);
    TotalUpdate(s.clients, c, Notifying, MayBroadcast);
  }

  /** However work steps interleave with clients, at most Measure(s) happen, and one for each spurious wake-up. */
  lemma {:induction false} DrainBound(s: State, es: seq<Event>)
    requires Feasible(s, es) && NoSubmits(es)
    ensures WorkSteps(es) + Measure(Run(s, es)) <= Measure(s) + SpuriousWakeups(es)
    decreases |es|
  {
    if es != [] {
      if IsWork(es[0]) {
        MeasureWork(s, es[0]);
      } else {
        MeasureOther(s, es[0]);
      }
      DrainBound(Step(s, es[0]), es[1..]);
    }
  }

  function NextMove(w: nat, worker: Worker): Event
    requires !worker.Asleep? && !worker.Exited?
  {
    match worker
    case Ready => TakeTask(w)
    case Running(_) => BodyReturns(w)
    case Recording(_, _) => Record(w)
    case Erasing(_) => Erase(w)
  }

  lemma AwakeWorkerMoves(s: State, w: nat)
    requires w < |s.workers| && !s.workers[w].Asleep? && !s.workers[w].Exited?
    ensures var e := NextMove(w, s.workers[w]); IsWork(e) && Enabled(s, e)
  {
  }

  /** With no notify owed, work that remains has a worker that is neither asleep nor gone. */
  lemma BusyPoolHasAwakeWorker(s: State) returns (w: nat)
    requires Inv(s) && !Quiescent(s) && |s.workers| > 0
    requires forall c :: 0 <= c < |s.clients| ==> !s.clients[c].Notifying?
    ensures w < |s.workers| && !s.workers[w].Asleep? && !s.workers[w].Exited?
  {
    hide Inv;
    if i :| 0 <= i < |s.workers| && !s.workers[i].Asleep? && !s.workers[i].Exited? {
      w := i;
    } else {
      NobodyHolds(s);
      w := QueuedWorkHasAwakeWorker(s);
    }
  }

  /** While work remains, a worker or a notifier can move. */
  lemma DrainProgress(s: State) returns (e: Event)
    requires Inv(s) && !Quiescent(s) && |s.workers| > 0
    ensures IsWork(e) && Enabled(s, e)
  {
    hide Inv, Enabled;
    if c :| 0 <= c < |s.clients| && s.clients[c].Notifying? {
      e := NotifyEvent(s, c);
    } else {
      var w := BusyPoolHasAwakeWorker(s);
      AwakeWorkerMoves(s, w);
      e := NextMove(w, s.workers[w]);
    }
  }

  lemma NobodyHolds(s: State)
    requires Inv(s) && forall w :: 0 <= w < |s.workers| ==> !InTask(s.workers[w])
    ensures s.inProgress == {}
  {
    assert TaskIds(s.workers) == {};
  }

  lemma NotifyEvent(s: State, c: nat) returns (e: Event)
    requires ClientAt(s, c) && s.clients[c].Notifying?
    ensures IsWork(e) && Enabled(s, e)
  {
    if w :| 0 <= w < |s.workers| && s.workers[w].Asleep? {
      e := SubmitNotify(c, Some(w));
    } else {
      e := SubmitNotify(c, None);
    }
  }

  /** No worker and no notifier can move. */
  ghost predicate Stuck(s: State)
  {
    forall e :: IsWork(e) ==> !Enabled(s, e)
  }

  lemma StuckMeansQuiescent(s: State)
    requires Inv(s) && |s.workers| > 0 && Stuck(s)
    ensures Quiescent(s) && NobodyBlocked(s)
  {
    if !Quiescent(s) {
      var e := DrainProgress(s);
    }
  }

  /** Nothing queued and no worker on a task. */
  ghost predicate NoWork(s: State)
  {
    Quiescent(s) && forall w :: 0 <= w < |s.workers| ==> !InTask(s.workers[w])
  }

  lemma QuiescentNoWork(s: State)
    requires Split(s) && Quiescent(s)
    ensures NoWork(s)
  {
    forall w | 0 <= w < |s.workers| ensures !InTask(s.workers[w]) {
      HolderInProgress(s, w);
    }
  }

  lemma {:induction false} NoWorkStays(s: State, es: seq<Event>)
    requires NoWork(s) && Feasible(s, es) && NoSubmits(es)
    ensures NoWork(Run(s, es))
    decreases |es|
  {
    if es != [] {
      NoWorkStays(Step(s, es[0]), es[1..]);
    }
  }

  /**
   Draining. Every schedule without new tasks, shutdown included, makes at most
   Measure(s) work steps and one more for each spurious wake-up, and where it cannot
   make another the predicate of `wait` holds and no waiter is asleep.
   */
  lemma Drains(s: State, es: seq<Event>)
    requires Reachable(s) && |s.workers| > 0 && Feasible(s, es) && NoSubmits(es)
    ensures WorkSteps(es) <= Measure(s) + SpuriousWakeups(es)
    ensures Stuck(Run(s, es)) ==> Quiescent(Run(s, es)) && NobodyBlocked(Run(s, es))
  {
    hide Inv, Measure, Quiescent, NobodyBlocked, Stuck, Reachable;
    ReachableInv(s);
    DrainBound(s, es);
    InvRun(s, es);
    ThreadsStay(s, es);
    if Stuck(Run(s, es)) {
      StuckMeansQuiescent(Run(s, es));
    }
  }

  ghost predicate NobodyBlocked(s: State)
  {
    forall c :: 0 <= c < |s.clients| ==> !s.clients[c].Blocked?
  }

  /** The predicate of `wait`, once true, stays true until the next submission. */
  lemma StaysDrained(s: State, es: seq<Event>)
    requires Reachable(s) && Quiescent(s) && Feasible(s, es) && NoSubmits(es)
    ensures Quiescent(Run(s, es)) && NobodyBlocked(Run(s, es))
  {
    ReachableInv(s);
    QuiescentNoWork(s);
    NoWorkStays(s, es);
    InvRun(s, es);
  }

  /** Such a schedule exists, of at most Measure(s) steps. */
  lemma {:induction false} DrainSchedule(s: State) returns (es: seq<Event>)
    requires Inv(s) && |s.workers| > 0
    ensures Feasible(s, es) && NoSubmits(es) && |es| <= Measure(s) && Quiescent(Run(s, es))
    decreases Measure(s)
  {
    hide Inv;
    if Quiescent(s) {
      es := [];
    } else {
      var e := DrainProgress(s);
      InvStep(s, e);
      MeasureWork(s, e);
      var rest := DrainSchedule(Step(s, e));
      es := [e] + rest;
      assert es[1..] == rest;
    }
  }

  // ----- shutdown -----

  ghost predicate Joins(s: State, c: nat)
  {
    ClientAt(s, c) && PastBroadcast(s.clients[c])
  }

  lemma {:induction false} JoinsStays(s: State, c: nat, es: seq<Event>)
    requires Joins(s, c) && Feasible(s, es)
    ensures Joins(Run(s, es), c)
    decreases |es|
  {
    if es != [] {
      JoinsStays(Step(s, es[0]), c, es[1..]);
    }
  }

  /** Once the destructor has broadcast, no worker sleeps again. */
  lemma AwakeAfterBroadcast(s: State, c: nat, es: seq<Event>)
    requires Reachable(s) && Joins(s, c) && Feasible(s, es)
    ensures var t := Run(s, es); Joins(t, c) && t.stopping && NobodyAsleep(t.workers)
  {
    ReachableInv(s);
    JoinsStays(s, c, es);
    InvRun(s, es);
  }

  lemma NobodySleeps(s: State, c: nat)
    requires Inv(s) && Joins(s, c)
    ensures NobodyAsleep(s.workers)
  {
  }

  /** The join makes progress: until every worker has exited, one of them can move, and the measure falls. */
  lemma JoinProgress(s: State, c: nat) returns (e: Event)
    requires Reachable(s) && Joins(s, c) && !AllExited(s.workers)
    ensures IsWork(e) && Enabled(s, e) && Measure(Step(s, e)) < Measure(s)
  {
    ReachableInv(s);
    NobodySleeps(s, c);
    hide Inv, Enabled, Joins;
    var w :| 0 <= w < |s.workers| && !s.workers[w].Exited?;
    AwakeWorkerMoves(s, w);
    e := NextMove(w, s.workers[w]);
    MeasureWork(s, e);
  }

  /** No worker leaves a queued task behind, neither when it exits nor later. */
  lemma ExitedLeaveNothing(workers: nat, clients: nat, es: seq<Event>, w: nat)
    requires Feasible(Init(workers, clients), es) && w < workers
    ensures var s := Run(Init(workers, clients), es);
            w < |s.workers| && (s.workers[w].Exited? ==> s.stopping && s.queue == [])
  {
    InvInit(workers, clients);
    InvRun(Init(workers, clients), es);
    ThreadsStay(Init(workers, clients), es);
  }

  /** When the destructor has joined its workers, every submitted task has been carried out, once. */
  lemma JoinedMeansDone(workers: nat, clients: nat, es: seq<Event>, c: nat)
    requires workers > 0 && c < clients && Feasible(Init(workers, clients), es)
    requires var s := Run(Init(workers, clients), es); ClientAt(s, c) && s.clients[c].Joined?
    ensures var s := Run(Init(workers, clients), es);
            && Quiescent(s) && AllExited(s.workers)
            && s.h.completed == Below(|s.h.submitted|)
            && (forall id: nat :: id < |s.h.submitted| ==> s.h.ran[id] == 1)
  {
    InvInit(workers, clients);
    InvRun(Init(workers, clients), es);
    ThreadsStay(Init(workers, clients), es);
    var s := Run(Init(workers, clients), es);
    assert s.workers[0].Exited?;
    assert TaskIds(s.workers) == {};
  }
}
