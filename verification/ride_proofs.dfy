/** What every step of the ride state manager keeps. */
module RideProofs {
  import opened RideModel

  // ----- transition history -----

  ghost predicate Linked(notes: seq<Note>)
  {
    && (notes != [] ==> notes[0].previous == Idle)
    && (forall i :: 0 <= i < |notes| - 1 ==> notes[i].current == notes[i + 1].previous)
    && (forall i :: 0 <= i < |notes| ==> IsValidTransition(notes[i].previous, notes[i].current))
  }

  ghost function LastRide(notes: seq<Note>): Ride
  {
    if notes == [] then Idle else notes[|notes| - 1].current
  }

  /** How many transitions entered a state. */
  ghost function Entered(notes: seq<Note>, r: Ride): nat
  {
    if notes == [] then 0
    else Entered(notes[..|notes| - 1], r) + if notes[|notes| - 1].current == r then 1 else 0
  }

  ghost predicate History(s: State)
  {
    && Linked(s.accepted) && s.ride == LastRide(s.accepted)
    && s.taken <= |s.accepted| && s.queue == s.accepted[s.taken..] && |s.queue| <= MAX_PENDING
  }

  // ----- dispatching -----

  /** The calls of one notification to the first m pairs of its snapshot. */
  ghost function CallsOf(n: nat, note: Note, healthy: seq<Pair>, m: nat): seq<Call>
    requires m <= |healthy|
  {
    seq(m, i requires 0 <= i < m => Call(n, healthy[i], note))
  }

  /** The calls of the first n notifications, each to its whole snapshot. */
  ghost function CallsUpTo(snaps: seq<seq<Pair>>, notes: seq<Note>, n: nat): seq<Call>
    requires n <= |snaps| && n <= |notes|
  {
    if n == 0 then []
    else CallsUpTo(snaps, notes, n - 1) + CallsOf(n - 1, notes[n - 1], snaps[n - 1], |snaps[n - 1]|)
  }

  /** Notifications whose dispatch is over. */
  ghost function Done(s: State): nat
  {
    if s.dispatcher.Dispatching? || s.dispatcher.Popped? then s.dispatcher.n else s.taken
  }

  /** The dispatcher works on the notification it popped last, and the calls so far are those of the snapshots. */
  ghost predicate Delivery(s: State)
  {
    && (s.dispatcher.Popped? || s.dispatcher.Dispatching? ==>
          s.dispatcher.n + 1 == s.taken && s.taken <= |s.accepted| && s.dispatcher.note == s.accepted[s.dispatcher.n])
    && |s.snaps| == (if s.dispatcher.Popped? then s.dispatcher.n else s.taken) <= |s.accepted|
    && (s.dispatcher.Dispatching? ==>
          s.dispatcher.healthy == s.snaps[s.dispatcher.n] && s.dispatcher.next <= |s.dispatcher.healthy|)
    && s.calls ==
       CallsUpTo(s.snaps, s.accepted, Done(s))
       + (if s.dispatcher.Dispatching?
          then CallsOf(s.dispatcher.n, s.dispatcher.note, s.dispatcher.healthy, s.dispatcher.next)
          else [])
    && (s.dispatcher.NotStarted? ==> s.taken == 0)
  }

  // ----- observers -----

  ghost predicate Distinct(ps: seq<Pair>)
  {
    forall i, j :: 0 <= i < j < |ps| ==> ps[i] != ps[j]
  }

  ghost predicate ObserversDistinct(s: State)
  {
    Distinct(s.observers) && forall k :: 0 <= k < |s.snaps| ==> Distinct(s.snaps[k])
  }

  // ----- shutdown -----

  ghost predicate Shutdown(s: State)
  {
    && (s.isShuttingDown <==> !s.destructor.Alive?)
    && (s.dispatcher.Sleeping? ==> s.queue == [] && (s.isShuttingDown ==> s.destructor.OwesNotify?))
    && (s.dispatcher.Exited? ==> s.stop || (s.isShuttingDown && s.queue == []))
    && (s.destructor.Joined? ==> s.dispatcher.Exited? || s.dispatcher.NotStarted?)
  }

  ghost predicate Inv(s: State)
  {
    History(s) && Delivery(s) && ObserversDistinct(s) && Shutdown(s)
  }

  // ----- filters -----

  lemma LivingLast(ps: seq<Pair>, dead: Dead)
    requires ps != []
    ensures var n := |ps| - 1;
            LivingOnly(ps, dead) == if Living(ps[n], dead) then LivingOnly(ps[..n], dead) + [ps[n]]
                                    else LivingOnly(ps[..n], dead)
  {
  }

  lemma OthersLast(ps: seq<Pair>, dead: Dead, o: nat)
    requires ps != []
    ensures var n := |ps| - 1;
            var others := WithoutObserver(ps[..n], dead, o);
            WithoutObserver(ps, dead, o) ==
            if ps[n].observer !in dead.observers && ps[n].observer != o then others + [ps[n]] else others
  {
  }

  lemma {:induction false} LivingMember(ps: seq<Pair>, dead: Dead, p: Pair)
    ensures p in LivingOnly(ps, dead) <==> p in ps && Living(p, dead)
  {
    if ps != [] {
      var n := |ps| - 1;
      LivingMember(ps[..n], dead, p);
      assert ps == ps[..n] + [ps[n]];
    }
  }

  lemma {:induction false} OthersMember(ps: seq<Pair>, dead: Dead, o: nat, p: Pair)
    ensures p in WithoutObserver(ps, dead, o) <==> p in ps && p.observer !in dead.observers && p.observer != o
  {
    if ps != [] {
      var n := |ps| - 1;
      OthersMember(ps[..n], dead, o, p);
      assert ps == ps[..n] + [ps[n]];
    }
  }

  lemma DistinctAppend(ps: seq<Pair>, p: Pair)
    requires Distinct(ps) && p !in ps
    ensures Distinct(ps + [p])
  {
  }

  lemma {:induction false} LivingDistinct(ps: seq<Pair>, dead: Dead)
    requires Distinct(ps)
    ensures Distinct(LivingOnly(ps, dead))
  {
    if ps != [] {
      var n := |ps| - 1;
      LivingDistinct(ps[..n], dead);
      LivingMember(ps[..n], dead, ps[n]);
      if Living(ps[n], dead) {
        DistinctAppend(LivingOnly(ps[..n], dead), ps[n]);
      }
    }
  }

  lemma {:induction false} OthersDistinct(ps: seq<Pair>, dead: Dead, o: nat)
    requires Distinct(ps)
    ensures Distinct(WithoutObserver(ps, dead, o))
  {
    if ps != [] {
      var n := |ps| - 1;
      OthersDistinct(ps[..n], dead, o);
      OthersMember(ps[..n], dead, o, ps[n]);
      if ps[n].observer !in dead.observers && ps[n].observer != o {
        DistinctAppend(WithoutObserver(ps[..n], dead, o), ps[n]);
      }
    }
  }

  lemma SubscribedMember(ps: seq<Pair>, dead: Dead, p: Pair, q: Pair)
    requires Living(p, dead)
    ensures q in Subscribed(ps, dead, p) <==>
              q == p || (q in ps && Living(q, dead)) || (p in ps && q in ps[IndexOf(ps, p)..])
  {
    var i := IndexOf(ps, p);
    LivingMember(ps[..i], dead, q);
    assert ps == ps[..i] + ps[i..];
  }

  /** Even a duplicate subscribe, which stops cleaning early, keeps the pairs distinct. */
  lemma SubscribedDistinct(ps: seq<Pair>, dead: Dead, p: Pair)
    requires Distinct(ps)
    ensures Distinct(Subscribed(ps, dead, p))
  {
    var i := IndexOf(ps, p);
    var front := LivingOnly(ps[..i], dead);
    var back := if i < |ps| then ps[i..] else [p];
    LivingDistinct(ps[..i], dead);
    forall a, b | 0 <= a < |front| && 0 <= b < |back| ensures front[a] != back[b] {
      LivingMember(ps[..i], dead, front[a]);
      assert front[a] in front;
    }
  }

  // ----- preservation -----

  lemma HistoryChange(s: State, next: Ride)
    requires History(s) && Accepts(s, next)
    ensures History(Step(s, TryChange(next)))
  {
    var note := Note(s.ride, next);
    LinkedAppend(s.accepted, note);
    assert (s.accepted + [note])[s.taken..] == s.accepted[s.taken..] + [note];
    hide Linked, IsValidTransition;
  }

  lemma LinkedAppend(notes: seq<Note>, note: Note)
    requires Linked(notes) && note.previous == LastRide(notes) && IsValidTransition(note.previous, note.current)
    ensures Linked(notes + [note]) && LastRide(notes + [note]) == note.current
  {
    hide IsValidTransition;
  }

  lemma HistoryTest(s: State)
    requires History(s) && Enabled(s, TestQueue)
    ensures History(Step(s, TestQueue))
  {
  }

  lemma HistorySame(s: State, s': State)
    requires History(s) && s'.accepted == s.accepted && s'.ride == s.ride && s'.queue == s.queue && s'.taken == s.taken
    ensures History(s')
  {
  }

  lemma HistoryStep(s: State, e: Event)
    requires History(s) && Enabled(s, e)
    ensures History(Step(s, e))
  {
    if e.TryChange? && Accepts(s, e.next) {
      HistoryChange(s, e.next);
    } else if e.TestQueue? {
      HistoryTest(s);
    } else {
      hide History;
      HistorySame(s, Step(s, e));
    }
  }

  lemma {:induction false} CallsUpToFrame(
    snaps: seq<seq<Pair>>, notes: seq<Note>, snaps': seq<seq<Pair>>, notes': seq<Note>, n: nat)
    requires n <= |snaps| && n <= |notes| && snaps <= snaps' && notes <= notes'
    ensures CallsUpTo(snaps, notes, n) == CallsUpTo(snaps', notes', n)
  {
    if n > 0 {
      CallsUpToFrame(snaps, notes, snaps', notes', n - 1);
    }
  }

  lemma DeliverySnapshot(s: State)
    requires Delivery(s) && Enabled(s, Snapshot)
    ensures Delivery(Step(s, Snapshot))
  {
    var s' := Step(s, Snapshot);
    CallsUpToFrame(s.snaps, s.accepted, s'.snaps, s'.accepted, Done(s));
    assert CallsOf(s.dispatcher.n, s.dispatcher.note, s'.dispatcher.healthy, 0) == [];
  }

  lemma DeliveryDispatch(s: State, throws: bool)
    requires Delivery(s) && Enabled(s, Dispatch(throws))
    ensures Delivery(Step(s, Dispatch(throws)))
  {
    var Dispatching(n, note, healthy, next) := s.dispatcher;
    assert CallsOf(n, note, healthy, next + 1) == CallsOf(n, note, healthy, next) + [Call(n, healthy[next], note)];
  }

  lemma DeliveryEnd(s: State)
    requires Delivery(s) && Enabled(s, EndDispatch)
    ensures Delivery(Step(s, EndDispatch))
  {
    assert s.calls == CallsUpTo(s.snaps, s.accepted, s.taken);
  }

  lemma DeliveryChange(s: State, next: Ride)
    requires Delivery(s) && Accepts(s, next)
    ensures Delivery(Step(s, TryChange(next)))
  {
    var s' := Step(s, TryChange(next));
    CallsUpToFrame(s.snaps, s.accepted, s'.snaps, s'.accepted, Done(s));
  }

  lemma DeliveryTest(s: State)
    requires History(s) && Delivery(s) && Enabled(s, TestQueue)
    ensures Delivery(Step(s, TestQueue))
  {
  }

  /** The dispatcher moves between positions where it holds no notification, or not at all. */
  lemma DeliverySame(s: State, s': State)
    requires Delivery(s)
    requires s'.accepted == s.accepted && s'.taken == s.taken && s'.snaps == s.snaps && s'.calls == s.calls
    requires s'.dispatcher == s.dispatcher
             || (!Busy(s.dispatcher) && !Busy(s'.dispatcher) && !s'.dispatcher.NotStarted?)
    ensures Delivery(s')
  {
  }

  predicate Busy(d: Dispatcher)
  {
    d.Popped? || d.Dispatching?
  }

  lemma DeliveryStep(s: State, e: Event)
    requires History(s) && Delivery(s) && Enabled(s, e)
    ensures Delivery(Step(s, e))
  {
    hide Delivery, History;
    match e
    case Snapshot => DeliverySnapshot(s);
    case Dispatch(throws) => DeliveryDispatch(s, throws);
    case EndDispatch => DeliveryEnd(s);
    case TestQueue => DeliveryTest(s);
    case TryChange(next) =>
      if Accepts(s, next) {
        DeliveryChange(s, next);
      }
    case _ =>
      DeliverySame(s, Step(s, e));
  }

  lemma ObserversDistinctStep(s: State, e: Event)
    requires ObserversDistinct(s) && Enabled(s, e)
    ensures ObserversDistinct(Step(s, e))
  {
    match e
    case Snapshot => LivingDistinct(s.observers, s.dead);
    case Subscribe(pair) => SubscribedDistinct(s.observers, s.dead, pair);
    case Unsubscribe(o) => OthersDistinct(s.observers, s.dead, o);
    case _ =>
  }

  lemma ShutdownStep(s: State, e: Event)
    requires Shutdown(s) && Enabled(s, e)
    ensures Shutdown(Step(s, e))
  {
  }

  lemma InvInit()
    ensures Inv(Init())
  {
  }

  lemma InvStep(s: State, e: Event)
    requires Inv(s) && Enabled(s, e)
    ensures Inv(Step(s, e))
  {
    HistoryStep(s, e);
    DeliveryStep(s, e);
    ObserversDistinctStep(s, e);
    ShutdownStep(s, e);
  }

  lemma {:induction false} InvRun(s: State, es: seq<Event>)
    requires Inv(s) && Feasible(s, es)
    ensures Inv(Run(s, es))
    decreases |es|
  {
    hide Inv;
    if es != [] {
      InvStep(s, es[0]);
      InvRun(Step(s, es[0]), es[1..]);
    }
  }
}
