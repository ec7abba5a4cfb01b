/**
 The ride state manager as an object: its critical sections, with the loops that erase
 while they iterate. The loops take a sequence of what has expired at each visit and in
 the end, since objects may die at any moment of a scan.
 */
module RideManager {
  import opened RideModel
  import opened RideProofs
  import opened RideScans
  import RideTrace

  datatype Tested = Sleep | Leave | Took(note: Note)

  class RideStateManager {
    var currentRideState: Ride
    var notificationsQueue: seq<Note>
    var isShuttingDown: bool
    var observers: seq<Pair>

    ghost var stop: bool
    ghost var dead: Dead
    ghost var dispatcher: Dispatcher
    ghost var destructor: Destructor
    ghost var accepted: seq<Note>
    ghost var taken: nat
    ghost var snaps: seq<seq<Pair>>
    ghost var calls: seq<Call>

    ghost function Model(): State
      reads this
    {
      State(currentRideState, notificationsQueue, isShuttingDown, stop, observers, dead, dispatcher, destructor,
            accepted, taken, snaps, calls)
    }

    ghost predicate Valid()
      reads this
    {
      Inv(Model())
    }

    constructor ()
      ensures Valid() && Model() == Init()
    {
      currentRideState, notificationsQueue, isShuttingDown, observers := Idle, [], false, [];
      stop, dead, dispatcher, destructor := false, Dead({}, {}), NotStarted, Alive;
      accepted, taken, snaps, calls := [], 0, [], [];
      new;
      InvInit();
    }

    method TryChangingState(next: Ride) returns (changed: bool)
      requires Valid()
      modifies this
      ensures Valid() && Model() == Step(old(Model()), TryChange(next))
      ensures changed <==> old((currentRideState, next) in RideTrace.EDGES
                               && |notificationsQueue| < 1024 && !isShuttingDown)
      ensures currentRideState == if changed then next else old(currentRideState)
      ensures changed ==> accepted == old(accepted) + [Note(old(currentRideState), currentRideState)]
    {
      hide Inv;
      InvStep(Model(), TryChange(next));
      RideTrace.EdgesAreTransitions(currentRideState, next);
      if !IsValidTransition(currentRideState, next) || |notificationsQueue| >= MAX_PENDING || isShuttingDown {
        return false;
      }
      var note := Note(currentRideState, next);
      currentRideState := next;
      notificationsQueue := notificationsQueue + [note];
      dispatcher := Notified(dispatcher);
      accepted := accepted + [note];
      return true;
    }

    method GetCurrentState() returns (r: Ride)
      requires Valid()
      ensures r == LastRide(accepted)
    {
      return currentRideState;
    }

    /** One test of the dispatcher's wait predicate, and what follows. The retry on an empty queue is dead code. */
    method TestQueue() returns (r: Tested)
      requires Valid() && dispatcher.Testing?
      modifies this
      ensures Valid() && Model() == Step(old(Model()), Event.TestQueue)
      ensures r.Took? ==> old(taken < |accepted|) && r.note == old(accepted[taken])
      ensures r.Leave? <==> dispatcher.Exited?
    {
      hide Inv;
      QueueHead(Model());
      InvStep(Model(), Event.TestQueue);
      if !(isShuttingDown || notificationsQueue != []) {
        dispatcher := Sleeping;
        return Sleep;
      }
      if isShuttingDown && notificationsQueue == [] {
        dispatcher := Exited;
        return Leave;
      }
      if notificationsQueue == [] {
        assert false;
      }
      var note := notificationsQueue[0];
      notificationsQueue := notificationsQueue[1..];
      dispatcher := Popped(taken, note);
      taken := taken + 1;
      return Took(note);
    }

    /**
     Erases expired registrations while collecting the others: both lists end up as the
     living ones, in order. A collected pair is locked, so it lives on.
     */
    method CollectHealthy(expired: seq<Dead>) returns (healthy: seq<Pair>)
      requires |expired| == |observers| + 1 && Deaths(dead, expired)
      requires KeptAlive(observers, expired)
      modifies this`observers
      ensures healthy == observers == LivingOnly(old(observers), Last(expired))
    {
      healthy := [];
      var i := 0;
      ghost var was := observers;
      var seen := 0;
      while i < |observers|
        invariant 0 <= i <= |observers| && 0 <= seen <= |was|
        invariant observers[i..] == was[seen..]
        invariant observers[..i] == healthy == LivingAtVisit(was[..seen], expired)
        decreases |observers| - i
      {
        assert was[..seen + 1][..seen] == was[..seen];
        assert observers[i] == observers[i..][0] == was[seen];
        assert observers[i + 1..] == was[seen + 1..] by {
          assert observers[i + 1..] == observers[i..][1..];
        }
        if Living(observers[i], expired[seen]) {
          healthy := healthy + [observers[i]];
          i := i + 1;
        } else {
          observers := observers[..i] + observers[i + 1..];
        }
        seen := seen + 1;
      }
      assert was[..seen] == was;
      assert observers[..i] == observers;
      LivingKept(was, expired, Last(expired));
    }

    method TakeSnapshot(expired: seq<Dead>) returns (healthy: seq<Pair>)
      requires Valid() && dispatcher.Popped? && |expired| == |observers| + 1 && Deaths(dead, expired)
      requires KeptAlive(observers, expired)
      modifies this
      ensures Valid() && Model() == Step(old(Model()).(dead := Last(expired)), Event.Snapshot)
      ensures healthy == LivingOnly(old(observers), Last(expired))
    {
      hide Inv, LivingOnly;
      ObserversStayDistinct(Model());
      InvObservers(Model(), observers, Last(expired));
      InvStep(Model().(dead := Last(expired)), Event.Snapshot);
      healthy := CollectHealthy(expired);
      dead := Last(expired);
      dispatcher := Dispatching(dispatcher.n, dispatcher.note, healthy, 0);
      snaps := snaps + [healthy];
    }

    /** The scan of subscribe: it erases expired registrations up to the first duplicate. */
    method ScanForDuplicate(pair: Pair, expired: seq<Dead>) returns (found: bool)
      requires |expired| == |observers| + 1
      requires forall k :: 0 <= k < |expired| ==> Living(pair, expired[k])
      modifies this`observers
      ensures found == (pair in old(observers))
      ensures observers + (if found then [] else [pair]) == SubscribedAtVisit(old(observers), expired, pair)
    {
      var i := 0;
      ghost var was := observers;
      var seen := 0;
      while i < |observers|
        invariant 0 <= i <= |observers| && 0 <= seen <= |was|
        invariant observers[i..] == was[seen..]
        invariant observers[..i] == LivingAtVisit(was[..seen], expired)
        invariant pair !in was[..seen]
        decreases |observers| - i
      {
        assert was[..seen + 1] == was[..seen] + [was[seen]];
        assert observers[i] == observers[i..][0] == was[seen];
        assert observers[i + 1..] == was[seen + 1..] by {
          assert observers[i + 1..] == observers[i..][1..];
        }
        if Living(observers[i], expired[seen]) {
          if observers[i] == pair {
            FirstIndex(was, pair, seen);
            assert observers == observers[..i] + observers[i..];
            assert observers + [] == observers;
            return true;
          }
          i := i + 1;
        } else {
          observers := observers[..i] + observers[i + 1..];
        }
        assert LivingAtVisit(was[..seen + 1], expired) ==
               LivingAtVisit(was[..seen], expired) + if Living(was[seen], expired[seen]) then [was[seen]] else [];
        seen := seen + 1;
      }
      assert was[..seen] == was && observers[..i] == observers;
      assert was[..IndexOf(was, pair)] == was;
      return false;
    }

    /**
     Subscribe, for objects the caller holds; a null one never reaches the list. Whoever
     dies during the scan, the outcome is that of the one step followed by the deaths, but
     for dead pairs.
     */
    method SubscribePair(pair: Pair, expired: seq<Dead>) returns (subscribed: bool)
      requires Valid() && |expired| == |observers| + 1 && Deaths(dead, expired)
      requires forall k :: 0 <= k < |expired| ==> Living(pair, expired[k])
      requires Living(pair, dead)
      modifies this
      ensures Valid() && Alike(Step(old(Model()), Event.Subscribe(pair)).(dead := Last(expired)), Model())
      ensures old(NoDeaths(dead, expired)) ==> Model() == Step(old(Model()), Event.Subscribe(pair))
      ensures subscribed == (!isShuttingDown && pair !in old(observers))
      ensures !isShuttingDown ==> pair in observers
      ensures subscribed ==> observers[|observers| - 1] == pair
      ensures forall p :: p in old(observers) && Living(p, Last(expired)) ==> p in observers
      ensures forall p :: p in observers ==> p in old(observers) || p == pair
    {
      hide Inv, LivingOnly, Subscribed;
      ghost var was := Model();
      ObserversStayDistinct(was);
      SubscribedAtVisitDistinct(observers, expired, pair);
      SubscribedInTheEnd(observers, dead, expired, pair);
      SubscribedAtVisitMembers(observers, dead, expired, pair);
      if NoDeaths(dead, expired) {
        SubscribedWithoutDeaths(observers, dead, expired, pair);
      }
      dead := Last(expired);
      if isShuttingDown {
        InvObservers(was, observers, dead);
        return false;
      }
      InvObservers(was, SubscribedAtVisit(observers, expired, pair), dead);
      var found := ScanForDuplicate(pair, expired);
      if found {
        assert observers + [] == observers;
        return false;
      }
      observers := observers + [pair];
      return true;
    }

    method UnsubscribeObserver(o: nat, expired: seq<Dead>) returns (done: bool)
      requires Valid() && |expired| == |observers| + 1 && Deaths(dead, expired)
      requires o !in dead.observers
      modifies this
      ensures Valid() && Alike(Step(old(Model()), Event.Unsubscribe(o)).(dead := Last(expired)), Model())
      ensures old(NoDeaths(dead, expired)) ==> Model() == Step(old(Model()), Event.Unsubscribe(o))
      ensures done == !isShuttingDown
      ensures done ==> forall p :: p in observers ==> p in old(observers) && p.observer != o
      ensures forall p :: p in old(observers) && Living(p, Last(expired)) && p.observer != o ==> p in observers
    {
      hide Inv, LivingOnly, WithoutObserver, OthersAtVisit, Distinct;
      ghost var was := Model();
      ObserversStayDistinct(was);
      OthersAtVisitDistinct(observers, expired, o);
      OthersAtVisitMembers(observers, dead, expired, o);
      OthersInTheEnd(observers, expired, Last(expired), o);
      OthersLater(observers, dead, Last(expired), o);
      if NoDeaths(dead, expired) {
        OthersWithoutDeaths(observers, dead, expired, o);
      }
      dead := Last(expired);
      if isShuttingDown {
        InvObservers(was, observers, dead);
        return false;
      }
      InvObservers(was, OthersAtVisit(observers, expired, o), dead);
      EraseObserver(o, expired);
      return true;
    }

    method EraseObserver(o: nat, expired: seq<Dead>)
      requires |expired| == |observers| + 1
      modifies this`observers
      ensures observers == OthersAtVisit(old(observers), expired, o)
    {
      var i := 0;
      ghost var was := observers;
      var seen := 0;
      while i < |observers|
        invariant 0 <= i <= |observers| && 0 <= seen <= |was|
        invariant observers[i..] == was[seen..]
        invariant observers[..i] == OthersAtVisit(was[..seen], expired, o)
        decreases |observers| - i
      {
        assert was[..seen + 1][..seen] == was[..seen];
        assert observers[i] == observers[i..][0] == was[seen];
        assert observers[i + 1..] == was[seen + 1..] by {
          assert observers[i + 1..] == observers[i..][1..];
        }
        if observers[i].observer !in expired[seen].observers && observers[i].observer != o {
          i := i + 1;
        } else {
          observers := observers[..i] + observers[i + 1..];
        }
        seen := seen + 1;
      }
      assert was[..seen] == was;
      assert observers[..i] == observers;
    }

    method BeginDestroy()
      requires Valid() && destructor.Alive?
      modifies this
      ensures Valid() && Model() == Step(old(Model()), Event.BeginDestroy)
    {
      hide Inv;
      InvStep(Model(), Event.BeginDestroy);
      isShuttingDown := true;
      destructor := OwesNotify;
    }

    /** One call of the dispatch loop; a callback's exception is caught, so throwing changes nothing. */
    ghost method DispatchNext(throws: bool)
      requires Valid() && Enabled(Model(), Event.Dispatch(throws))
      modifies this`dispatcher, this`calls
      ensures Valid() && Model() == Step(old(Model()), Event.Dispatch(throws))
      ensures Model() == Step(old(Model()), Event.Dispatch(!throws))
    {
      hide Inv;
      InvStep(Model(), Event.Dispatch(throws));
      var next := Step(Model(), Event.Dispatch(throws));
      dispatcher, calls := next.dispatcher, next.calls;
    }

    /** Steps that touch no field: thread start, the stop flag, wake-ups, deaths, the destructor's join. */
    ghost method Schedule(e: Event)
      requires Valid() && Enabled(Model(), e)
      requires e.Start? || e.RaiseStop? || e.ReadStop? || e.Spurious? || e.EndDispatch?
               || e.DispatcherDies? || e.ObserverDies? || e.NotifyDestroy? || e.Join?
      modifies this`stop, this`dead, this`dispatcher, this`destructor
      ensures Valid() && Model() == Step(old(Model()), e)
    {
      hide Inv;
      InvStep(Model(), e);
      var next := Step(Model(), e);
      stop, dead, dispatcher, destructor := next.stop, next.dead, next.dispatcher, next.destructor;
    }
  }

  /** The queue's head is the next accepted transition. */
  lemma QueueHead(s: State)
    requires Inv(s)
    ensures s.queue != [] ==> s.taken < |s.accepted| && s.queue[0] == s.accepted[s.taken]
  {
  }

  lemma ObserversStayDistinct(s: State)
    requires Inv(s)
    ensures Distinct(s.observers)
  {
  }

  lemma SubscribedWithoutDeaths(ps: seq<Pair>, dead: Dead, expired: seq<Dead>, p: Pair)
    requires |ps| <= |expired| && NoDeaths(dead, expired)
    ensures SubscribedAtVisit(ps, expired, p) == Subscribed(ps, dead, p)
  {
    LivingWithoutDeaths(ps[..IndexOf(ps, p)], dead, expired);
  }

  lemma FirstIndex(ps: seq<Pair>, p: Pair, i: nat)
    requires i < |ps| && ps[i] == p && p !in ps[..i]
    ensures IndexOf(ps, p) == i
  {
    var k := IndexOf(ps, p);
    assert forall j :: 0 <= j < i ==> ps[j] in ps[..i];
    assert forall j :: 0 <= j < k ==> ps[j] in ps[..k];
  }
}
