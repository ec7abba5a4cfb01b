/** The whole-run guarantees of the ride state manager. */
module RideTheorems {
  import opened RideModel
  import opened RideProofs

  // ----- history -----

  /** On a linked path of legal transitions, each stage of a ride is entered at most as often as the one before it. */
  lemma {:induction false} Ladder(notes: seq<Note>)
    requires Linked(notes)
    ensures Entered(notes, Requested) == Entered(notes, Idle) + if LastRide(notes) == Idle then 0 else 1
    ensures Entered(notes, PassengerBoarding) + (if LastRide(notes) == Requested then 1 else 0)
            <= Entered(notes, Requested)
    ensures Entered(notes, InProgress) + (if LastRide(notes) == PassengerBoarding then 1 else 0)
            <= Entered(notes, PassengerBoarding)
    ensures Entered(notes, Completed) + (if LastRide(notes) == InProgress then 1 else 0) <= Entered(notes, InProgress)
  {
    if notes != [] {
      var n := |notes| - 1;
      assert LastRide(notes[..n]) == notes[n].previous;
      Ladder(notes[..n]);
    }
  }

  ghost function InFlight(s: State): seq<Note>
  {
    if s.dispatcher.Popped? || s.dispatcher.Dispatching? then [s.dispatcher.note] else []
  }

  lemma Reached(es: seq<Event>)
    requires Feasible(Init(), es)
    ensures Inv(Run(Init(), es))
  {
    InvInit();
    InvRun(Init(), es);
  }

  /** Some run of a fresh manager leads here. */
  ghost predicate Reachable(s: State)
  {
    exists es: seq<Event> :: Feasible(Init(), es) && Run(Init(), es) == s
  }

  lemma ReachableInv(s: State)
    requires Reachable(s)
    ensures Inv(s)
  {
    var es :| Feasible(Init(), es) && Run(Init(), es) == s;
    Reached(es);
  }

  /**
   Whatever the callers do, delivered, in-flight and pending notifications are
   together all accepted transitions in order: a legal path from Idle to the current
   state whose stages are entered in order.
   */
  lemma TransitionHistory(es: seq<Event>)
    requires Feasible(Init(), es)
    ensures var s := Run(Init(), es);
            && Done(s) <= |s.accepted| && s.accepted == s.accepted[..Done(s)] + InFlight(s) + s.queue
            && |s.queue| <= MAX_PENDING
            && Linked(s.accepted) && s.ride == LastRide(s.accepted)
            && Entered(s.accepted, Completed) <= Entered(s.accepted, InProgress)
               <= Entered(s.accepted, PassengerBoarding) <= Entered(s.accepted, Requested)
               <= 1 + Entered(s.accepted, Idle)
  {
    Reached(es);
    Ladder(Run(Init(), es).accepted);
  }

  // ----- what an observer sees -----

  /** The notifications handed to p, in the order of the calls. */
  ghost function View(calls: seq<Call>, p: Pair): seq<nat>
  {
    if calls == [] then [] else
    var last := calls[|calls| - 1];
    View(calls[..|calls| - 1], p) + if last.pair == p then [last.n] else []
  }

  /** The notifications below n whose snapshot holds p. */
  ghost function Snapped(snaps: seq<seq<Pair>>, n: nat, p: Pair): seq<nat>
    requires n <= |snaps|
  {
    if n == 0 then [] else Snapped(snaps, n - 1, p) + if p in snaps[n - 1] then [n - 1] else []
  }

  lemma {:induction false} ViewAppend(a: seq<Call>, b: seq<Call>, p: Pair)
    ensures View(a + b, p) == View(a, p) + View(b, p)
  {
    if b == [] {
      assert a + b == a;
    } else {
      var n := |b| - 1;
      assert (a + b)[..|a + b| - 1] == a + b[..n];
      ViewAppend(a, b[..n], p);
    }
  }

  /** Distinct pairs: one call each. */
  lemma {:induction false} ViewCallsOf(n: nat, note: Note, healthy: seq<Pair>, m: nat, p: Pair)
    requires Distinct(healthy) && m <= |healthy|
    ensures View(CallsOf(n, note, healthy, m), p) == if p in healthy[..m] then [n] else []
  {
    if m > 0 {
      var calls := CallsOf(n, note, healthy, m);
      assert calls[..m - 1] == CallsOf(n, note, healthy, m - 1);
      assert healthy[..m] == healthy[..m - 1] + [healthy[m - 1]];
      assert healthy[m - 1] !in healthy[..m - 1];
      ViewCallsOf(n, note, healthy, m - 1, p);
    }
  }

  lemma {:induction false} ViewCallsUpTo(snaps: seq<seq<Pair>>, notes: seq<Note>, n: nat, p: Pair)
    requires n <= |snaps| && n <= |notes| && forall k :: 0 <= k < |snaps| ==> Distinct(snaps[k])
    ensures View(CallsUpTo(snaps, notes, n), p) == Snapped(snaps, n, p)
  {
    if n > 0 {
      var before := CallsUpTo(snaps, notes, n - 1);
      ViewCallsUpTo(snaps, notes, n - 1, p);
      ViewNext(before, n - 1, notes[n - 1], snaps[n - 1], p);
    }
  }

  lemma ViewNext(before: seq<Call>, n: nat, note: Note, healthy: seq<Pair>, p: Pair)
    requires Distinct(healthy)
    ensures View(before + CallsOf(n, note, healthy, |healthy|), p) == View(before, p) + if p in healthy then [n] else []
  {
    ViewCallsOf(n, note, healthy, |healthy|, p);
    assert healthy[..|healthy|] == healthy;
    ViewAppend(before, CallsOf(n, note, healthy, |healthy|), p);
  }

  /** p has been handed exactly the notifications whose snapshot holds it, the current one only once its turn came. */
  lemma ViewIsSnapped(s: State, p: Pair)
    requires Inv(s)
    ensures Done(s) <= |s.snaps|
    ensures View(s.calls, p) ==
            Snapped(s.snaps, Done(s), p)
            + if s.dispatcher.Dispatching? && p in s.dispatcher.healthy[..s.dispatcher.next]
              then [s.dispatcher.n] else []
  {
    var n := Done(s);
    ViewCallsUpTo(s.snaps, s.accepted, n, p);
    if s.dispatcher.Dispatching? {
      var Dispatching(k, note, healthy, next) := s.dispatcher;
      ViewCallsOf(k, note, healthy, next, p);
      ViewAppend(CallsUpTo(s.snaps, s.accepted, n), CallsOf(k, note, healthy, next), p);
    } else {
      ViewAppend(CallsUpTo(s.snaps, s.accepted, n), [], p);
    }
  }

  lemma {:induction false} CallsCarryNotes(snaps: seq<seq<Pair>>, notes: seq<Note>, n: nat, c: Call)
    requires n <= |snaps| && n <= |notes| && c in CallsUpTo(snaps, notes, n)
    ensures c.n < n && c.note == notes[c.n] && c.pair in snaps[c.n]
  {
    if c in CallsUpTo(snaps, notes, n - 1) {
      CallsCarryNotes(snaps, notes, n - 1, c);
    } else {
      var i :| 0 <= i < |snaps[n - 1]| && c == CallsOf(n - 1, notes[n - 1], snaps[n - 1], |snaps[n - 1]|)[i];
    }
  }

  /** Every dispatch call passes the accepted transition it is for. */
  lemma CallsAreAccepted(s: State, c: Call)
    requires Inv(s) && c in s.calls
    ensures c.n < |s.accepted| && c.note == s.accepted[c.n]
  {
    if c in CallsUpTo(s.snaps, s.accepted, Done(s)) {
      CallsCarryNotes(s.snaps, s.accepted, Done(s), c);
    }
  }

  ghost function Interval(from: nat, to: nat): seq<nat>
    requires from <= to
  {
    seq(to - from, i requires 0 <= i < to - from => from + i)
  }

  /** Nothing that would unregister p. */
  predicate KeepsPair(e: Event, p: Pair)
  {
    e != Unsubscribe(p.observer) && e != DispatcherDies(p.dispatcher) && e != ObserverDies(p.observer)
  }

  ghost predicate Registered(s: State, p: Pair)
  {
    p in s.observers && Living(p, s.dead)
  }

  lemma RegisteredStep(s: State, e: Event, p: Pair)
    requires Registered(s, p) && Enabled(s, e) && KeepsPair(e, p)
    ensures Registered(Step(s, e), p)
  {
    match e
    case Snapshot => LivingMember(s.observers, s.dead, p);
    case Subscribe(pair) => SubscribedMember(s.observers, s.dead, pair, p);
    case Unsubscribe(o) => OthersMember(s.observers, s.dead, o, p);
    case _ =>
  }

  lemma {:induction false} SnappedFrame(snaps: seq<seq<Pair>>, snaps': seq<seq<Pair>>, n: nat, p: Pair)
    requires n <= |snaps| && snaps <= snaps'
    ensures Snapped(snaps, n, p) == Snapped(snaps', n, p)
  {
    if n > 0 {
      SnappedFrame(snaps, snaps', n - 1, p);
    }
  }

  lemma SnapsStep(s: State, e: Event, p: Pair)
    requires Registered(s, p) && Enabled(s, e)
    ensures var s' := Step(s, e);
            && s.snaps <= s'.snaps
            && Snapped(s'.snaps, |s'.snaps|, p) == Snapped(s.snaps, |s.snaps|, p) + Interval(|s.snaps|, |s'.snaps|)
  {
    var s' := Step(s, e);
    if e.Snapshot? {
      LivingMember(s.observers, s.dead, p);
    }
    SnappedFrame(s.snaps, s'.snaps, |s.snaps|, p);
  }

  lemma {:induction false} SegmentSnapped(s: State, es: seq<Event>, p: Pair)
    requires Registered(s, p) && Feasible(s, es) && forall i :: 0 <= i < |es| ==> KeepsPair(es[i], p)
    ensures var t := Run(s, es);
            && Registered(t, p) && |s.snaps| <= |t.snaps|
            && Snapped(t.snaps, |t.snaps|, p) == Snapped(s.snaps, |s.snaps|, p) + Interval(|s.snaps|, |t.snaps|)
    decreases |es|
  {
    if es != [] {
      var s' := Step(s, es[0]);
      RegisteredStep(s, es[0], p);
      SnapsStep(s, es[0], p);
      SegmentSnapped(s', es[1..], p);
      var t := Run(s', es[1..]);
      assert Interval(|s.snaps|, |s'.snaps|) + Interval(|s'.snaps|, |t.snaps|) == Interval(|s.snaps|, |t.snaps|);
    }
  }

  /** The call to p that the dispatch under way has yet to make. */
  ghost function Owed(s: State, p: Pair): seq<nat>
    requires s.dispatcher.Dispatching? ==> s.dispatcher.next <= |s.dispatcher.healthy|
  {
    if s.dispatcher.Dispatching? && p in s.dispatcher.healthy[s.dispatcher.next..] then [s.dispatcher.n] else []
  }

  lemma WholeView(s: State, p: Pair)
    requires Inv(s)
    ensures s.dispatcher.Dispatching? ==> s.dispatcher.next <= |s.dispatcher.healthy|
    ensures Linked(s.accepted) && |s.snaps| <= |s.accepted|
    ensures View(s.calls, p) + Owed(s, p) == Snapped(s.snaps, |s.snaps|, p)
  {
    ViewIsSnapped(s, p);
    LastSnapshot(s);
    hide Inv, View, Linked, Distinct;
    if s.dispatcher.Dispatching? {
      SplitTurn(s.dispatcher.healthy, s.dispatcher.next, p);
    }
  }

  /** A dispatch under way works on the last snapshot; otherwise all snapshots are done with. */
  lemma LastSnapshot(s: State)
    requires Inv(s)
    ensures Linked(s.accepted) && |s.snaps| <= |s.accepted|
    ensures s.dispatcher.Dispatching? ==>
              var d := s.dispatcher;
              && d.next <= |d.healthy| && Distinct(d.healthy)
              && Done(s) == d.n == |s.snaps| - 1 && s.snaps[d.n] == d.healthy
    ensures !s.dispatcher.Dispatching? ==> Done(s) == |s.snaps|
  {
    hide Linked, CallsUpTo, CallsOf;
  }

  /** A pair comes up once. */
  lemma SplitTurn(ps: seq<Pair>, next: nat, p: Pair)
    requires Distinct(ps) && next <= |ps|
    ensures p in ps <==> p in ps[..next] || p in ps[next..]
    ensures !(p in ps[..next] && p in ps[next..])
  {
    assert ps == ps[..next] + ps[next..];
  }

  /**
   While a pair stays alive and registered it is handed every notification whose
   snapshot is taken meanwhile, once each and in order, as one contiguous stretch of
   the accepted transitions, whatever callbacks throw or call back. What a dispatch
   under way still owes is accounted for at either end.
   */
  lemma RegisteredSeesAll(s: State, es: seq<Event>, p: Pair)
    requires Reachable(s) && Registered(s, p)
    requires Feasible(s, es) && forall i :: 0 <= i < |es| ==> KeepsPair(es[i], p)
    ensures var t := Run(s, es);
            && (s.dispatcher.Dispatching? ==> s.dispatcher.next <= |s.dispatcher.healthy|)
            && (t.dispatcher.Dispatching? ==> t.dispatcher.next <= |t.dispatcher.healthy|)
            && |s.snaps| <= |t.snaps| <= |t.accepted|
            && View(t.calls, p) + Owed(t, p) == View(s.calls, p) + Owed(s, p) + Interval(|s.snaps|, |t.snaps|)
            && (forall c :: c in t.calls ==> c.n < |t.accepted| && c.note == t.accepted[c.n])
            && Linked(t.accepted)
  {
    hide Inv, Feasible, Run, View, Snapped, Reachable;
    ReachableInv(s);
    InvRun(s, es);
    var t := Run(s, es);
    SegmentSnapped(s, es, p);
    WholeView(s, p);
    WholeView(t, p);
    forall c | c in t.calls ensures c.n < |t.accepted| && c.note == t.accepted[c.n] {
      CallsAreAccepted(t, c);
    }
  }

  /** No pair is ever handed a notification twice, or out of order. */
  lemma ViewIncreases(es: seq<Event>, p: Pair)
    requires Feasible(Init(), es)
    ensures Ascending(View(Run(Init(), es).calls, p), |Run(Init(), es).accepted|)
  {
    Reached(es);
    var s := Run(Init(), es);
    ViewIsSnapped(s, p);
    SnappedIncreases(s.snaps, Done(s), p);
    if s.dispatcher.Dispatching? && p in s.dispatcher.healthy[..s.dispatcher.next] {
      AscendingAppend(Snapped(s.snaps, Done(s), p), Done(s));
    }
  }

  ghost predicate Ascending(v: seq<nat>, bound: nat)
  {
    (forall i :: 0 <= i < |v| ==> v[i] < bound) && (forall i, j :: 0 <= i < j < |v| ==> v[i] < v[j])
  }

  lemma AscendingAppend(v: seq<nat>, n: nat)
    requires Ascending(v, n)
    ensures Ascending(v, n + 1) && Ascending(v + [n], n + 1)
  {
  }

  lemma {:induction false} SnappedIncreases(snaps: seq<seq<Pair>>, n: nat, p: Pair)
    requires n <= |snaps|
    ensures Ascending(Snapped(snaps, n, p), n)
  {
    if n > 0 {
      SnappedIncreases(snaps, n - 1, p);
      AscendingAppend(Snapped(snaps, n - 1, p), n - 1);
      assert p !in snaps[n - 1] ==> Snapped(snaps, n, p) == Snapped(snaps, n - 1, p);
    }
  }

  // ----- the observer list -----

  /** The cleaning loops keep order: they filter piece by piece. */
  lemma {:induction false} LivingAppend(a: seq<Pair>, b: seq<Pair>, dead: Dead)
    ensures LivingOnly(a + b, dead) == LivingOnly(a, dead) + LivingOnly(b, dead)
  {
    if b == [] {
      assert a + b == a;
    } else {
      assert (a + b)[..|a + b| - 1] == a + b[..|b| - 1];
      LivingAppend(a, b[..|b| - 1], dead);
    }
  }

  lemma {:induction false} OthersAppend(a: seq<Pair>, b: seq<Pair>, dead: Dead, o: nat)
    ensures WithoutObserver(a + b, dead, o) == WithoutObserver(a, dead, o) + WithoutObserver(b, dead, o)
  {
    if b == [] {
      assert a + b == a;
    } else {
      assert (a + b)[..|a + b| - 1] == a + b[..|b| - 1];
      OthersAppend(a, b[..|b| - 1], dead, o);
    }
  }

  lemma {:induction false} LivingTwice(ps: seq<Pair>, dead: Dead)
    ensures LivingOnly(LivingOnly(ps, dead), dead) == LivingOnly(ps, dead)
  {
    if ps != [] {
      var n := |ps| - 1;
      LivingTwice(ps[..n], dead);
      LivingAppend(LivingOnly(ps[..n], dead), if Living(ps[n], dead) then [ps[n]] else [], dead);
    }
  }

  /** A new pair goes behind the living ones; a duplicate leaves them as they are, however early its scan stops. */
  lemma SubscribeOutcome(ps: seq<Pair>, dead: Dead, p: Pair)
    requires Living(p, dead)
    ensures p !in ps ==> Subscribed(ps, dead, p) == LivingOnly(ps, dead) + [p]
    ensures p in ps ==> LivingOnly(Subscribed(ps, dead, p), dead) == LivingOnly(ps, dead)
  {
    var i := IndexOf(ps, p);
    hide LivingOnly, IndexOf;
    if i < |ps| {
      LivingAppend(LivingOnly(ps[..i], dead), ps[i..], dead);
      LivingTwice(ps[..i], dead);
      LivingAppend(ps[..i], ps[i..], dead);
      assert ps == ps[..i] + ps[i..];
    } else {
      assert ps[..i] == ps;
    }
  }

  /** In every reachable state no pair is registered twice, and no snapshot names a pair twice. */
  lemma NoPairTwice(es: seq<Event>)
    requires Feasible(Init(), es)
    ensures var s := Run(Init(), es);
            Distinct(s.observers) && forall k :: 0 <= k < |s.snaps| ==> Distinct(s.snaps[k])
  {
    Reached(es);
  }

  /** A snapshot leaves on the list, and dispatches to, exactly the registered pairs that are alive, in order. */
  lemma SnapshotIsLiving(s: State, p: Pair)
    requires Enabled(s, Snapshot)
    ensures var s' := Step(s, Snapshot);
            && s'.observers == s'.dispatcher.healthy == LivingOnly(s.observers, s.dead)
            && (p in s'.observers <==> Registered(s, p))
  {
    LivingMember(s.observers, s.dead, p);
  }

  // ----- after unsubscribe -----

  ghost predicate Mentions(ps: seq<Pair>, o: nat)
  {
    exists p :: p in ps && p.observer == o
  }

  /** Since a moment with calls0 calls and snaps0 snapshots o is off the list; only the last of those can name it. */
  ghost predicate Gone(s: State, o: nat, calls0: nat, snaps0: nat)
  {
    && !Mentions(s.observers, o)
    && calls0 <= |s.calls|
    && (s.dispatcher.Dispatching? && Mentions(s.dispatcher.healthy, o) ==> s.dispatcher.n + 1 == snaps0)
    && (forall i :: calls0 <= i < |s.calls| && s.calls[i].pair.observer == o ==> s.calls[i].n + 1 == snaps0)
  }

  lemma GoneStep(s: State, e: Event, o: nat, calls0: nat, snaps0: nat)
    requires Gone(s, o, calls0, snaps0) && Enabled(s, e)
    requires !(e.Subscribe? && e.pair.observer == o)
    ensures Gone(Step(s, e), o, calls0, snaps0)
  {
    var s' := Step(s, e);
    forall p | p in s'.observers ensures p.observer != o {
      match e
      case Snapshot => LivingMember(s.observers, s.dead, p);
      case Subscribe(pair) =>
        SubscribedMember(s.observers, s.dead, pair, p);
      case Unsubscribe(o') => OthersMember(s.observers, s.dead, o', p);
      case _ =>
    }
  }

  lemma {:induction false} GoneRun(s: State, es: seq<Event>, o: nat, calls0: nat, snaps0: nat)
    requires Gone(s, o, calls0, snaps0) && Feasible(s, es)
    requires forall i :: 0 <= i < |es| ==> !(es[i].Subscribe? && es[i].pair.observer == o)
    ensures Gone(Run(s, es), o, calls0, snaps0)
    decreases |es|
  {
    hide Gone;
    if es != [] {
      GoneStep(s, es[0], o, calls0, snaps0);
      GoneRun(Step(s, es[0]), es[1..], o, calls0, snaps0);
    }
  }

  /**
   After a successful unsubscribe, and until the observer subscribes again, only the
   notification that was already being dispatched can still reach it.
   */
  lemma UnsubscribedSeesNoMore(s: State, o: nat, es: seq<Event>)
    requires Reachable(s) && Enabled(s, Unsubscribe(o)) && !s.isShuttingDown
    requires Feasible(Step(s, Unsubscribe(o)), es)
    requires forall i :: 0 <= i < |es| ==> !(es[i].Subscribe? && es[i].pair.observer == o)
    ensures var t := Run(Step(s, Unsubscribe(o)), es);
            && |s.calls| <= |t.calls|
            && (forall i :: |s.calls| <= i < |t.calls| && t.calls[i].pair.observer == o ==>
                  t.calls[i].n + 1 == |s.snaps|)
            && (!s.dispatcher.Dispatching? ==>
                  forall i :: |s.calls| <= i < |t.calls| ==> t.calls[i].pair.observer != o)
  {
    ReachableInv(s);
    GoneAtUnsubscribe(s, o);
    var u := Step(s, Unsubscribe(o));
    GoneRun(u, es, o, |s.calls|, |s.snaps|);
    if !s.dispatcher.Dispatching? {
      GoneRun(u, es, o, |s.calls|, 0);
    }
  }

  lemma GoneAtUnsubscribe(s: State, o: nat)
    requires Delivery(s) && Enabled(s, Unsubscribe(o)) && !s.isShuttingDown
    ensures Gone(Step(s, Unsubscribe(o)), o, |s.calls|, |s.snaps|)
    ensures !s.dispatcher.Dispatching? ==> Gone(Step(s, Unsubscribe(o)), o, |s.calls|, 0)
  {
    var u := Step(s, Unsubscribe(o));
    forall p | p in u.observers ensures p.observer != o {
      OthersMember(s.observers, s.dead, o, p);
    }
  }

  // ----- shutdown -----

  /** Once the destructor has begun, nothing is accepted: the ride and its history are frozen. */
  lemma {:induction false} FrozenAfterShutdown(s: State, es: seq<Event>)
    requires s.isShuttingDown && Feasible(s, es)
    ensures var t := Run(s, es); t.isShuttingDown && t.ride == s.ride && t.accepted == s.accepted && t.taken >= s.taken
    decreases |es|
  {
    if es != [] {
      FrozenAfterShutdown(Step(s, es[0]), es[1..]);
    }
  }

  /**
   A dispatcher that has exited has delivered a prefix of the accepted transitions,
   each to its whole snapshot; without a stop it has delivered all of them.
   */
  lemma ExitDelivers(es: seq<Event>)
    requires Feasible(Init(), es) && Run(Init(), es).dispatcher.Exited?
    ensures var s := Run(Init(), es);
            && |s.snaps| <= |s.accepted| && s.calls == CallsUpTo(s.snaps, s.accepted, |s.snaps|)
            && (!s.stop ==> s.isShuttingDown && |s.snaps| == |s.accepted| && s.queue == [])
  {
    Reached(es);
  }

  /** A sleeping dispatcher has nothing to do, and will hear of a shutdown. */
  lemma SleeperMissesNothing(es: seq<Event>)
    requires Feasible(Init(), es) && Run(Init(), es).dispatcher.Sleeping?
    ensures var s := Run(Init(), es); s.queue == [] && (s.isShuttingDown ==> s.destructor.OwesNotify?)
  {
    Reached(es);
  }

  predicate DispatcherStep(e: Event)
  {
    e.ReadStop? || e.TestQueue? || e.Spurious? || e.Snapshot? || e.Dispatch? || e.EndDispatch?
  }

  ghost function Phase(d: Dispatcher, observers: nat): nat
  {
    match d
    case Exited => 0
    case NotStarted => 0
    case Testing => 2
    case Sleeping => 3
    case LoopTop => 3
    case Dispatching(_, _, healthy, next) => 4 + if next < |healthy| then |healthy| - next else 0
    case Popped(_, _) => 5 + observers
  }

  /** The work left to a dispatcher whose manager shuts down. */
  ghost function Remaining(s: State): nat
  {
    |s.queue| * (6 + |s.observers|) + Phase(s.dispatcher, |s.observers|)
  }

  lemma ProductMonotone(q: nat, a: nat, b: nat)
    requires a <= b
    ensures q * a <= q * b
  {
  }

  lemma RemainingStep(s: State, e: Event)
    requires s.isShuttingDown && !s.destructor.Alive? && Enabled(s, e)
    ensures Remaining(Step(s, e)) + (if DispatcherStep(e) then 1 else 0) <= Remaining(s)
  {
    var s' := Step(s, e);
    if e.TestQueue? && s.queue != [] {
      assert |s.queue| * (6 + |s.observers|) == |s'.queue| * (6 + |s.observers|) + (6 + |s.observers|);
    } else if e.Snapshot? {
      ProductMonotone(|s.queue|, 6 + |s'.observers|, 6 + |s.observers|);
    }
  }

  ghost function DispatcherSteps(es: seq<Event>): nat
  {
    if es == [] then 0 else (if DispatcherStep(es[0]) then 1 else 0) + DispatcherSteps(es[1..])
  }

  /** After shutdown begins the dispatcher makes at most Remaining(s) steps, however callers interleave. */
  lemma {:induction false} ShutdownBound(s: State, es: seq<Event>)
    requires s.isShuttingDown && !s.destructor.Alive? && Feasible(s, es)
    ensures DispatcherSteps(es) + Remaining(Run(s, es)) <= Remaining(s)
    decreases |es|
  {
    if es != [] {
      RemainingStep(s, es[0]);
      ShutdownBound(Step(s, es[0]), es[1..]);
    }
  }

  /** Once the destructor has notified, a started dispatcher can step until it exits; then the join can proceed. */
  lemma ShutdownProgress(s: State) returns (e: Event)
    requires Reachable(s) && s.destructor.Joining?
    ensures Enabled(s, e) && (DispatcherStep(e) || e == Join)
  {
    ReachableInv(s);
    match s.dispatcher
    case LoopTop => e := ReadStop;
    case Testing => e := TestQueue;
    case Popped(_, _) => e := Snapshot;
    case Dispatching(_, _, healthy, next) => e := if next < |healthy| then Dispatch(false) else EndDispatch;
    case Exited => e := Join;
    case NotStarted => e := Join;
  }
}
