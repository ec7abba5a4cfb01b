/**
 What the ride state manager must do, read off the events of a run alone: which
 transitions are accepted, who is on the list, what each snapshot holds and who is
 called with what. Nothing here looks at the state a step leaves behind.
 */
module RideTrace {
  import opened RideModel
  import opened RideProofs
  import opened RideTheorems

  // ----- what the events say -----

  /** The transitions there are: a reset from every state but Idle, and each stage from the one before it. */
  const EDGES: set<(Ride, Ride)> := {
    (Requested, Idle), (PassengerBoarding, Idle), (InProgress, Idle), (Completed, Idle),
    (Idle, Requested), (Requested, PassengerBoarding), (PassengerBoarding, InProgress), (InProgress, Completed)
  }

  ghost function RideAfter(notes: seq<Note>): Ride
  {
    if notes == [] then Idle else notes[|notes| - 1].current
  }

  /** The transitions made. */
  ghost function Made(es: seq<Event>): seq<Note>
    decreases |es|, 0
  {
    if es == [] then [] else
    var n := |es| - 1;
    var before := Made(es[..n]);
    if && es[n].TryChange? && (RideAfter(before), es[n].next) in EDGES
       && |before| < PoppedBy(es[..n]) + 1024 && BeginDestroy !in es[..n]
    then before + [Note(RideAfter(before), es[n].next)]
    else before
  }

  /** How many of them the dispatcher has popped: a test of its wait pops one if there is one. */
  ghost function PoppedBy(es: seq<Event>): nat
    decreases |es|, 0
  {
    if es == [] then 0 else
    var n := |es| - 1;
    var before := PoppedBy(es[..n]);
    if es[n].TestQueue? && before < |Made(es[..n])| then before + 1 else before
  }

  datatype Gone = OfDispatcher(d: nat) | OfObserver(o: nat)

  predicate Names(p: Pair, gone: Gone)
  {
    match gone
    case OfDispatcher(d) => p.dispatcher == d
    case OfObserver(o) => p.observer == o
  }

  ghost function Without(ps: seq<Pair>, gone: Gone): seq<Pair>
  {
    if ps == [] then [] else
    var n := |ps| - 1;
    Without(ps[..n], gone) + if Names(ps[n], gone) then [] else [ps[n]]
  }

  /** The pairs that are registered and alive, in the order of their subscriptions. */
  ghost function Listed(es: seq<Event>): seq<Pair>
  {
    if es == [] then [] else
    var n := |es| - 1;
    NextListed(Listed(es[..n]), BeginDestroy in es[..n], es[n])
  }

  ghost function NextListed(before: seq<Pair>, shutting: bool, e: Event): seq<Pair>
  {
    match e
    case Subscribe(p) => if shutting || p in before then before else before + [p]
    case Unsubscribe(o) => if shutting then before else Without(before, OfObserver(o))
    case DispatcherDies(d) => Without(before, OfDispatcher(d))
    case ObserverDies(o) => Without(before, OfObserver(o))
    case _ => before
  }

  ghost function Snapshots(es: seq<Event>): seq<seq<Pair>>
  {
    if es == [] then [] else
    var n := |es| - 1;
    Snapshots(es[..n]) + if es[n].Snapshot? then [Listed(es[..n])] else []
  }

  /** Dispatches since the last snapshot. */
  ghost function Turn(es: seq<Event>): nat
  {
    if es == [] then 0 else
    var n := |es| - 1;
    if es[n].Snapshot? then 0 else Turn(es[..n]) + if es[n].Dispatch? then 1 else 0
  }

  /** The call a dispatch makes: the last snapshot's next pair, with the transition of the same number. */
  ghost function NextCall(es: seq<Event>): seq<Call>
  {
    var n := |Snapshots(es)| - 1;
    if 0 <= n < |Made(es)| && Turn(es) < |Snapshots(es)[n]|
    then [Call(n, Snapshots(es)[n][Turn(es)], Made(es)[n])]
    else []
  }

  ghost function Called(es: seq<Event>): seq<Call>
  {
    if es == [] then [] else
    var n := |es| - 1;
    Called(es[..n]) + if es[n].Dispatch? then NextCall(es[..n]) else []
  }

  // ----- the state follows -----

  ghost predicate RideFollows(s: State, es: seq<Event>)
  {
    && s.accepted == Made(es) && s.ride == RideAfter(Made(es)) && s.taken == PoppedBy(es)
    && (s.isShuttingDown <==> BeginDestroy in es) && (s.stop <==> RaiseStop in es)
  }

  ghost predicate ListFollows(s: State, es: seq<Event>)
  {
    LivingOnly(s.observers, s.dead) == Listed(es)
  }

  ghost predicate CallsFollow(s: State, es: seq<Event>)
  {
    && s.snaps == Snapshots(es) && s.calls == Called(es)
    && (s.dispatcher.Dispatching? ==> s.dispatcher.next == Turn(es))
  }

  ghost predicate Follows(s: State, es: seq<Event>)
  {
    Inv(s) && RideFollows(s, es) && ListFollows(s, es) && CallsFollow(s, es)
  }

  lemma OneMoreRide(es: seq<Event>, e: Event)
    ensures Made(es + [e]) ==
            Made(es) + if && e.TryChange? && (RideAfter(Made(es)), e.next) in EDGES
                          && |Made(es)| < PoppedBy(es) + 1024 && BeginDestroy !in es
                       then [Note(RideAfter(Made(es)), e.next)] else []
    ensures PoppedBy(es + [e]) == PoppedBy(es) + if e.TestQueue? && PoppedBy(es) < |Made(es)| then 1 else 0
  {
    assert (es + [e])[..|es + [e]| - 1] == es;
  }

  lemma EdgesAreTransitions(a: Ride, b: Ride)
    ensures (a, b) in EDGES <==> IsValidTransition(a, b)
  {
  }

  lemma RideFollowsStep(s: State, es: seq<Event>, e: Event)
    requires History(s) && RideFollows(s, es) && Enabled(s, e)
    ensures RideFollows(Step(s, e), es + [e])
  {
    OneMoreRide(es, e);
    if e.TryChange? {
      EdgesAreTransitions(s.ride, e.next);
    }
    hide Made, PoppedBy, Linked, LivingOnly, WithoutObserver, Subscribed, IsValidTransition;
  }

  lemma OneMoreListed(es: seq<Event>, e: Event)
    ensures Listed(es + [e]) == NextListed(Listed(es), BeginDestroy in es, e)
  {
    assert (es + [e])[..|es + [e]| - 1] == es;
  }

  lemma {:induction false} LivingAfterDispatcher(ps: seq<Pair>, dead: Dead, d: nat)
    ensures LivingOnly(ps, dead.(dispatchers := dead.dispatchers + {d}))
            == Without(LivingOnly(ps, dead), OfDispatcher(d))
  {
    if ps != [] {
      var n := |ps| - 1;
      LivingAfterDispatcher(ps[..n], dead, d);
      LivingLast(ps, dead.(dispatchers := dead.dispatchers + {d}));
      LivingLast(ps, dead);
      WithoutOneMore(LivingOnly(ps[..n], dead), ps[n], OfDispatcher(d));
    }
  }

  lemma {:induction false} LivingAfterObserver(ps: seq<Pair>, dead: Dead, o: nat)
    ensures LivingOnly(ps, dead.(observers := dead.observers + {o}))
            == Without(LivingOnly(ps, dead), OfObserver(o))
  {
    if ps != [] {
      var n := |ps| - 1;
      LivingAfterObserver(ps[..n], dead, o);
      LivingLast(ps, dead.(observers := dead.observers + {o}));
      LivingLast(ps, dead);
      WithoutOneMore(LivingOnly(ps[..n], dead), ps[n], OfObserver(o));
    }
  }

  lemma WithoutOneMore(ps: seq<Pair>, p: Pair, gone: Gone)
    ensures Without(ps + [p], gone) == Without(ps, gone) + if Names(p, gone) then [] else [p]
  {
    assert (ps + [p])[..|ps|] == ps;
  }

  /** What unsubscribe leaves of the living is the living without the observer's. */
  lemma {:induction false} LivingAfterUnsubscribe(ps: seq<Pair>, dead: Dead, o: nat)
    ensures LivingOnly(WithoutObserver(ps, dead, o), dead)
            == Without(LivingOnly(ps, dead), OfObserver(o))
  {
    if ps != [] {
      var n := |ps| - 1;
      var p := ps[n];
      LivingAfterUnsubscribe(ps[..n], dead, o);
      OthersLast(ps, dead, o);
      LivingLast(ps, dead);
      WithoutOneMore(LivingOnly(ps[..n], dead), p, OfObserver(o));
      LivingOneMore(WithoutObserver(ps[..n], dead, o), p, dead);
    }
  }

  lemma LivingOneMore(ps: seq<Pair>, p: Pair, dead: Dead)
    ensures LivingOnly(ps + [p], dead) == LivingOnly(ps, dead) + if Living(p, dead) then [p] else []
  {
    assert (ps + [p])[..|ps|] == ps;
  }

  /** Subscribing puts a new pair behind the living ones. */
  lemma LivingAfterSubscribe(ps: seq<Pair>, dead: Dead, p: Pair)
    requires Living(p, dead)
    ensures LivingOnly(Subscribed(ps, dead, p), dead)
            == if p in LivingOnly(ps, dead) then LivingOnly(ps, dead) else LivingOnly(ps, dead) + [p]
  {
    hide LivingOnly, Subscribed;
    LivingMember(ps, dead, p);
    SubscribeOutcome(ps, dead, p);
    if p !in ps {
      LivingOneMore(LivingOnly(ps, dead), p, dead);
      LivingTwice(ps, dead);
    }
  }

  lemma ListFollowsStep(s: State, es: seq<Event>, e: Event)
    requires RideFollows(s, es) && ListFollows(s, es) && Enabled(s, e)
    ensures ListFollows(Step(s, e), es + [e])
  {
    hide Listed, LivingOnly, Subscribed, WithoutObserver, Without;
    OneMoreListed(es, e);
    match e
    case Subscribe(p) => LivingAfterSubscribe(s.observers, s.dead, p);
    case Unsubscribe(o) => LivingAfterUnsubscribe(s.observers, s.dead, o);
    case DispatcherDies(d) => LivingAfterDispatcher(s.observers, s.dead, d);
    case ObserverDies(o) => LivingAfterObserver(s.observers, s.dead, o);
    case Snapshot => LivingTwice(s.observers, s.dead);
    case _ =>
  }

  lemma OneMoreCalled(es: seq<Event>, e: Event)
    ensures Snapshots(es + [e]) == Snapshots(es) + if e.Snapshot? then [Listed(es)] else []
    ensures Turn(es + [e]) == if e.Snapshot? then 0 else Turn(es) + if e.Dispatch? then 1 else 0
    ensures Called(es + [e]) == Called(es) + if e.Dispatch? then NextCall(es) else []
  {
    assert (es + [e])[..|es + [e]| - 1] == es;
  }

  lemma CallsFollowStep(s: State, es: seq<Event>, e: Event)
    requires Delivery(s) && s.accepted == Made(es) && ListFollows(s, es) && CallsFollow(s, es) && Enabled(s, e)
    ensures CallsFollow(Step(s, e), es + [e])
  {
    OneMoreCalled(es, e);
    hide Snapshots, Called, Turn, Made, Listed, LivingOnly, Subscribed, WithoutObserver, CallsUpTo, CallsOf;
  }

  lemma FollowsStep(s: State, es: seq<Event>, e: Event)
    requires Follows(s, es) && Enabled(s, e)
    ensures Follows(Step(s, e), es + [e])
  {
    InvStep(s, e);
    RideFollowsStep(s, es, e);
    ListFollowsStep(s, es, e);
    MadeSoFar(s, es);
    CallsFollowStep(s, es, e);
    hide Step, Enabled, RideFollows, ListFollows, CallsFollow, History, Delivery, ObserversDistinct, Shutdown;
  }

  lemma MadeSoFar(s: State, es: seq<Event>)
    requires RideFollows(s, es)
    ensures s.accepted == Made(es)
  {
  }

  lemma {:induction false} RunLast(s: State, es: seq<Event>)
    requires Feasible(s, es) && es != []
    ensures var n := |es| - 1;
            Feasible(s, es[..n]) && Enabled(Run(s, es[..n]), es[n]) && Run(s, es) == Step(Run(s, es[..n]), es[n])
    decreases |es|
  {
    var n := |es| - 1;
    if n > 0 {
      RunLast(Step(s, es[0]), es[1..]);
      assert es[1..][..n - 1] == es[..n][1..];
    }
  }

  lemma FreshFollows()
    ensures Follows(Init(), [])
  {
    InvInit();
  }

  lemma {:induction false} StateFollows(es: seq<Event>)
    requires Feasible(Init(), es)
    ensures Follows(Run(Init(), es), es)
    decreases |es|
  {
    hide Follows;
    if es == [] {
      FreshFollows();
    } else {
      var n := |es| - 1;
      RunLast(Init(), es);
      StateFollows(es[..n]);
      FollowsStep(Run(Init(), es[..n]), es[..n], es[n]);
      assert es[..n] + [es[n]] == es;
    }
  }

  // ----- what callers and observers see -----

  /**
   After every run the ride is where the legal requests among the calls have brought it,
   and the queue holds those of them not yet popped.
   */
  lemma RideFollowsCalls(es: seq<Event>)
    requires Feasible(Init(), es)
    ensures var s := Run(Init(), es);
            && s.ride == RideAfter(Made(es))
            && PoppedBy(es) <= |Made(es)| && s.queue == Made(es)[PoppedBy(es)..]
  {
    StateFollows(es);
  }

  /** After every run the registered pairs that live are those the calls and deaths have left, in subscription order. */
  lemma ListFollowsCalls(es: seq<Event>, p: Pair)
    requires Feasible(Init(), es)
    ensures var s := Run(Init(), es);
            LivingOnly(s.observers, s.dead) == Listed(es) && (Registered(s, p) <==> p in Listed(es))
  {
    StateFollows(es);
    var s := Run(Init(), es);
    LivingMember(s.observers, s.dead, p);
  }

  /**
   The calls made in every run: each dispatch calls the next pair of the list as it was
   at the last snapshot, with the transition of the same number.
   */
  lemma CallsFollowEvents(es: seq<Event>)
    requires Feasible(Init(), es)
    ensures var s := Run(Init(), es);
            s.snaps == Snapshots(es) && s.calls == Called(es) && |Snapshots(es)| <= PoppedBy(es)
  {
    StateFollows(es);
  }

  /** No dispatch of a run goes without a call. */
  lemma DispatchCalls(es: seq<Event>, throws: bool)
    requires Feasible(Init(), es) && Enabled(Run(Init(), es), Dispatch(throws))
    ensures |NextCall(es)| == 1
  {
    StateFollows(es);
  }

  // ----- one request -----

  /** With room and before shutdown a request changes the state exactly along an edge, and queues the note of it. */
  lemma TransitionTable(s: State, next: Ride)
    requires |s.queue| < 1024 && !s.isShuttingDown
    ensures var t := Step(s, TryChange(next));
            if (s.ride, next) in EDGES
            then t.ride == next && t.queue == s.queue + [Note(s.ride, next)] && t.observers == s.observers
            else t == s
  {
    EdgesAreTransitions(s.ride, next);
  }

  ghost function Stage(k: nat): Ride
    requires k <= 4
  {
    [Idle, Requested, PassengerBoarding, InProgress, Completed][k]
  }

  ghost function FirstStages(k: nat): seq<Event>
    requires k <= 4
  {
    seq(k, i requires 0 <= i < k => TryChange(Stage(i + 1)))
  }

  /** From the start, a full ride goes through stage by stage, and a reset from any of them is accepted. */
  lemma {:induction false} FullRideAndResets(k: nat)
    requires k <= 4
    ensures Feasible(Init(), FirstStages(k)) && Feasible(Init(), FirstStages(k) + [TryChange(Idle)])
    ensures var s := Run(Init(), FirstStages(k));
            s.ride == Stage(k) && |s.queue| == k && !s.isShuttingDown
    ensures var s := Run(Init(), FirstStages(k) + [TryChange(Idle)]);
            s.ride == Idle && |s.queue| == (if k == 0 then 0 else k + 1)
  {
    var es := FirstStages(k);
    if k > 0 {
      FullRideAndResets(k - 1);
      assert es == FirstStages(k - 1) + [TryChange(Stage(k))];
      RunAppend(Init(), FirstStages(k - 1), TryChange(Stage(k)));
      TransitionTable(Run(Init(), FirstStages(k - 1)), Stage(k));
    }
    RunAppend(Init(), es, TryChange(Idle));
    TransitionTable(Run(Init(), es), Idle);
  }

  lemma {:induction false} RunAppend(s: State, es: seq<Event>, e: Event)
    requires Feasible(s, es) && Enabled(Run(s, es), e)
    ensures Feasible(s, es + [e]) && Run(s, es + [e]) == Step(Run(s, es), e)
    decreases |es|
  {
    if es != [] {
      assert (es + [e])[1..] == es[1..] + [e];
      RunAppend(Step(s, es[0]), es[1..], e);
    }
  }

  // ----- the dispatcher -----

  /** Pops the dispatcher can still make after a stop. */
  ghost function PopsLeft(d: Dispatcher): nat
  {
    if d.Testing? || d.Sleeping? then 1 else 0
  }

  /** Once stop is raised the dispatcher pops at most once more, and only if it was past reading the flag. */
  lemma {:induction false} StopBoundsPops(s: State, es: seq<Event>)
    requires s.stop && Feasible(s, es)
    ensures Run(s, es).taken <= s.taken + PopsLeft(s.dispatcher) <= s.taken + 1
    decreases |es|
  {
    if es != [] {
      StopBoundsPops(Step(s, es[0]), es[1..]);
    }
  }

  predicate DispatcherStep(e: Event)
  {
    e.Start? || e.ReadStop? || e.TestQueue? || e.Spurious? || e.Snapshot? || e.Dispatch? || e.EndDispatch?
  }

  /** Finding nothing to deliver and no shutdown the dispatcher blocks; a spurious wake-up only makes it test again. */
  lemma IdleDispatcherBlocks(s: State)
    requires s.dispatcher.Testing? && s.queue == [] && !s.isShuttingDown
    ensures var t := Step(s, TestQueue);
            && (forall e :: DispatcherStep(e) && Enabled(t, e) ==> e == Spurious)
            && Enabled(t, Spurious) && Step(t, Spurious) == s
  {
  }

  lemma {:induction false} JoinedForGood(s: State, es: seq<Event>)
    requires s.destructor.Joined? && (s.dispatcher.Exited? || s.dispatcher.NotStarted?) && Feasible(s, es)
    ensures Run(s, es).calls == s.calls
    ensures forall i :: 0 <= i < |es| ==> !DispatcherStep(es[i]) && es[i] != Join
    decreases |es|
  {
    if es != [] {
      hide Subscribed, LivingOnly, WithoutObserver;
      JoinedForGood(Step(s, es[0]), es[1..]);
    }
  }

  /** After the join nobody is ever called again, and there is no second join. */
  lemma NothingAfterJoin(s: State, es: seq<Event>)
    requires Enabled(s, Join) && Feasible(s, [Join] + es)
    ensures Run(s, [Join] + es).calls == s.calls
    ensures forall i :: 0 <= i < |es| ==> !DispatcherStep(es[i]) && es[i] != Join
  {
    assert ([Join] + es)[1..] == es;
    JoinedForGood(Step(s, Join), es);
  }

  // ----- one subscription -----

  /** q stands before r. */
  ghost predicate Before(ps: seq<Pair>, q: Pair, r: Pair)
  {
    exists i, j :: 0 <= i < j < |ps| && ps[i] == q && ps[j] == r
  }

  lemma BeforeOneMore(ps: seq<Pair>, p: Pair, q: Pair, r: Pair)
    ensures Before(ps + [p], q, r) <==> Before(ps, q, r) || (q in ps && r == p)
  {
    var all := ps + [p];
    if Before(all, q, r) {
      var i, j :| 0 <= i < j < |all| && all[i] == q && all[j] == r;
      assert j < |ps| ==> ps[i] == q && ps[j] == r;
    }
    if i, j :| 0 <= i < j < |ps| && ps[i] == q && ps[j] == r {
      assert all[i] == q && all[j] == r;
    }
    if r == p && q in ps {
      var i :| 0 <= i < |ps| && ps[i] == q;
      assert all[i] == q && all[|ps|] == r;
    }
  }

  lemma {:induction false} LivingBefore(ps: seq<Pair>, dead: Dead, q: Pair, r: Pair)
    requires Living(q, dead) && Living(r, dead)
    ensures Before(LivingOnly(ps, dead), q, r) <==> Before(ps, q, r)
  {
    if ps != [] {
      var n := |ps| - 1;
      LivingBefore(ps[..n], dead, q, r);
      LivingLast(ps, dead);
      LivingMember(ps[..n], dead, q);
      assert ps == ps[..n] + [ps[n]];
      BeforeOneMore(ps[..n], ps[n], q, r);
      BeforeOneMore(LivingOnly(ps[..n], dead), ps[n], q, r);
    }
  }

  /**
   Before shutdown a subscribe leaves the pair registered, every other living pair as it
   was, those that were registered in their order, and a new pair behind them all.
   */
  lemma SubscribeRegisters(s: State, p: Pair, q: Pair, r: Pair)
    requires !s.isShuttingDown && Enabled(s, Subscribe(p))
    ensures var t := Step(s, Subscribe(p));
            && Registered(t, p)
            && (q != p ==> (Registered(t, q) <==> Registered(s, q)))
            && (Registered(s, q) && Registered(s, r) ==> (Before(t.observers, q, r) <==> Before(s.observers, q, r)))
            && (!Registered(s, p) && Registered(s, q) ==> Before(t.observers, q, p) && !Before(t.observers, p, q))
  {
    var t := Step(s, Subscribe(p));
    var living := LivingOnly(s.observers, s.dead);
    LivingAfterSubscribe(s.observers, s.dead, p);
    ListMembers(s, p);
    ListMembers(s, q);
    ListMembers(s, r);
    ListMembers(t, p);
    ListMembers(t, q);
    if Registered(s, q) && Registered(s, r) {
      LivingBefore(s.observers, s.dead, q, r);
      LivingBefore(t.observers, s.dead, q, r);
      BeforeOneMore(living, p, q, r);
    }
    if !Registered(s, p) && Registered(s, q) {
      LivingBefore(t.observers, s.dead, q, p);
      LivingBefore(t.observers, s.dead, p, q);
      BeforeOneMore(living, p, q, p);
      BeforeOneMore(living, p, p, q);
      AbsentNotBefore(living, p, q);
    }
  }

  lemma AbsentNotBefore(ps: seq<Pair>, p: Pair, q: Pair)
    requires p !in ps
    ensures !Before(ps, p, q)
  {
  }

  lemma ListMembers(s: State, q: Pair)
    ensures q in LivingOnly(s.observers, s.dead) <==> Registered(s, q)
  {
    LivingMember(s.observers, s.dead, q);
  }

  /** Before shutdown an unsubscribe takes the observer's pairs off, and leaves the others in their order. */
  lemma UnsubscribeRemoves(s: State, o: nat, q: Pair, r: Pair)
    requires !s.isShuttingDown && Enabled(s, Unsubscribe(o))
    ensures var t := Step(s, Unsubscribe(o));
            && (Registered(t, q) <==> Registered(s, q) && q.observer != o)
            && (Registered(t, q) && Registered(t, r) ==> (Before(t.observers, q, r) <==> Before(s.observers, q, r)))
  {
    OthersMember(s.observers, s.dead, o, q);
    OthersMember(s.observers, s.dead, o, r);
    var t := Step(s, Unsubscribe(o));
    if Registered(t, q) && Registered(t, r) {
      OthersBefore(s.observers, s.dead, o, q, r);
    }
  }

  lemma {:induction false} OthersBefore(ps: seq<Pair>, dead: Dead, o: nat, q: Pair, r: Pair)
    requires q.observer !in dead.observers && q.observer != o && r.observer !in dead.observers && r.observer != o
    ensures Before(WithoutObserver(ps, dead, o), q, r) <==> Before(ps, q, r)
  {
    if ps != [] {
      var n := |ps| - 1;
      OthersBefore(ps[..n], dead, o, q, r);
      OthersLast(ps, dead, o);
      OthersMember(ps[..n], dead, o, q);
      assert ps == ps[..n] + [ps[n]];
      BeforeOneMore(ps[..n], ps[n], q, r);
      BeforeOneMore(WithoutObserver(ps[..n], dead, o), ps[n], q, r);
    }
  }

  // ----- from a subscription on -----

  lemma {:induction false} RunConcat(s: State, a: seq<Event>, b: seq<Event>)
    requires Feasible(s, a + b)
    ensures Feasible(s, a) && Feasible(Run(s, a), b) && Run(s, a + b) == Run(Run(s, a), b)
    decreases |a|
  {
    if a == [] {
      assert a + b == b;
    } else {
      assert (a + b)[1..] == a[1..] + b;
      RunConcat(Step(s, a[0]), a[1..], b);
    }
  }

  lemma {:induction false} SnapsHold(s: State, es: seq<Event>, p: Pair)
    requires Registered(s, p) && Feasible(s, es) && forall i :: 0 <= i < |es| ==> KeepsPair(es[i], p)
    ensures s.snaps <= Run(s, es).snaps
    ensures forall k :: |s.snaps| <= k < |Run(s, es).snaps| ==> p in Run(s, es).snaps[k]
    decreases |es|
  {
    if es != [] {
      var s' := Step(s, es[0]);
      RegisteredStep(s, es[0], p);
      LivingMember(s.observers, s.dead, p);
      SnapsHold(s', es[1..], p);
    }
  }

  /**
   From a subscribe before shutdown on, until something unregisters the pair, every
   snapshot holds it: it is handed every one of those notifications, once each and in
   order, whatever else anybody does.
   */
  lemma SubscribedSeesAll(before: seq<Event>, p: Pair, after: seq<Event>)
    requires Feasible(Init(), before + ([Subscribe(p)] + after)) && BeginDestroy !in before
    requires forall i :: 0 <= i < |after| ==> KeepsPair(after[i], p)
    ensures Feasible(Init(), before)
    ensures var s, t := Run(Init(), before), Run(Init(), before + ([Subscribe(p)] + after));
            && s.snaps <= t.snaps && (forall k :: |s.snaps| <= k < |t.snaps| ==> p in t.snaps[k])
            && (s.dispatcher.Dispatching? ==> s.dispatcher.next <= |s.dispatcher.healthy|)
            && (t.dispatcher.Dispatching? ==> t.dispatcher.next <= |t.dispatcher.healthy|)
            && View(t.calls, p) + Owed(t, p) == View(s.calls, p) + Owed(s, p) + Interval(|s.snaps|, |t.snaps|)
  {
    hide View, Owed, Inv;
    RunConcat(Init(), before, [Subscribe(p)] + after);
    var s := Run(Init(), before);
    StateFollows(before);
    NotShutting(s, before);
    assert ([Subscribe(p)] + after)[1..] == after;
    var s1 := Step(s, Subscribe(p));
    SubscribeRegisters(s, p, p, p);
    RunAppend(Init(), before, Subscribe(p));
    assert Reachable(s1);
    RegisteredSeesAll(s1, after, p);
    SnapsHold(s1, after, p);
    SameView(s, p);
  }

  lemma NotShutting(s: State, es: seq<Event>)
    requires Follows(s, es) && BeginDestroy !in es
    ensures !s.isShuttingDown
  {
  }

  lemma SameView(s: State, p: Pair)
    requires Enabled(s, Subscribe(p)) && (s.dispatcher.Dispatching? ==> s.dispatcher.next <= |s.dispatcher.healthy|)
    ensures var t := Step(s, Subscribe(p));
            t.calls == s.calls && t.snaps == s.snaps && t.dispatcher == s.dispatcher && Owed(t, p) == Owed(s, p)
  {
  }
}
