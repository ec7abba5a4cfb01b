/** The expiring cache as an object: the critical sections of its methods and of its sweeper thread. */
module Cache {
  import opened Common
  import opened CacheModel
  import opened CacheProofs

  class TExpiringCache {
    var currentGeneration: nat
    var lookupMap: map<Key, MapEntry>
    var expirationQueue: seq<HeapEntry>
    var isStopping: bool

    ghost var clock: Time
    ghost var sweeper: Sweeper
    ghost var stops: nat
    ghost var writes: seq<Write>
    ghost var passes: nat
    ghost var pops: nat

    ghost function Model(): State
      reads this
    {
      State(clock, currentGeneration, lookupMap, expirationQueue, isStopping, sweeper, stops, writes, passes, pops)
    }

    ghost predicate Valid()
      reads this
    {
      Inv(Model())
    }

    constructor (ghost start: Time)
      ensures Valid() && Model() == Init(start)
    {
      currentGeneration, lookupMap, expirationQueue, isStopping := 0, map[], [], false;
      clock, sweeper, stops, writes, passes, pops := start, Arming, 0, [], 0, 0;
      new;
      InvInit(start);
    }

    /** Any entry the priority queue may report as its top. */
    method Top() returns (i: nat)
      requires expirationQueue != []
      ensures IsTop(expirationQueue, i)
    {
      ghost var least := LeastIndex(expirationQueue);
      i :| 0 <= i < |expirationQueue| && IsTop(expirationQueue, i);
    }

    method Put(key: Key, value: Value, ttl: int, now: Time) returns (notified: bool, ghost top: nat)
      requires Valid() && now == clock
      modifies this
      ensures Enabled(old(Model()), Event.Put(key, value, ttl, top))
      ensures Valid() && Model() == Step(old(Model()), Event.Put(key, value, ttl, top))
      ensures old(!isStopping && forall h :: h in expirationQueue ==> now + ttl < h.expiration) ==> notified
      ensures !isStopping ==>
                key in lookupMap && lookupMap[key].value == value && lookupMap[key].expiration == now + ttl
      ensures forall k :: k != key || isStopping ==> (k in lookupMap <==> k in old(lookupMap))
      ensures forall k :: (k != key || isStopping) && k in lookupMap ==> lookupMap[k] == old(lookupMap)[k]
    {
      hide Inv;
      ghost var before := Model();
      notified, top := false, 0;
      if isStopping {
        return;
      }
      currentGeneration := currentGeneration + 1;
      lookupMap := lookupMap[key := MapEntry(now + ttl, currentGeneration, value)];
      expirationQueue := expirationQueue + [HeapEntry(now + ttl, currentGeneration, key)];
      writes := writes + [Stored(key, value, now, ttl)];
      var t := Top();
      top := t;
      if expirationQueue[t].key == key {
        notified := true;
        sweeper := Notified(sweeper);
      }
      InvStep(before, Event.Put(key, value, ttl, top));
      assert expirationQueue[|before.heap|].expiration == now + ttl;
      assert t < |before.heap| ==> expirationQueue[t] in before.heap;
    }

    method Get(key: Key, now: Time) returns (r: Option<Value>)
      requires Valid() && now == clock
      ensures r == if isStopping then None else Live(writes, key, now)
      ensures r.Some? <==> !isStopping && key in lookupMap && now < lookupMap[key].expiration
      ensures r.Some? ==> r.value == lookupMap[key].value
    {
      LiveIsLastWrite(writes, key, now);
      assert AgreesOn(Model(), key);
      if isStopping {
        return None;
      }
      if key !in lookupMap {
        return None;
      }
      if lookupMap[key].expiration <= now {
        return None;
      }
      return Some(lookupMap[key].value);
    }

    method Remove(key: Key) returns (removed: bool, ghost top: nat)
      requires Valid()
      modifies this
      ensures Enabled(old(Model()), Event.Remove(key, top))
      ensures Valid() && Model() == Step(old(Model()), Event.Remove(key, top))
      ensures removed == old(!isStopping && key in lookupMap)
      ensures !isStopping ==> key !in lookupMap
      ensures forall k :: k != key ==> (k in lookupMap <==> k in old(lookupMap))
      ensures forall k :: k != key && k in lookupMap ==> lookupMap[k] == old(lookupMap)[k]
      ensures expirationQueue == old(expirationQueue)
      ensures !old(isStopping) && Live(old(writes), key, old(clock)).Some? ==> removed
    {
      ghost var before := Model();
      if !isStopping {
        PresenceBounds(before, key);
      }
      removed, top := false, 0;
      if isStopping {
        return;
      }
      removed := key in lookupMap;
      lookupMap := lookupMap - {key};
      writes := writes + [Removed(key)];
      if expirationQueue != [] {
        var t := Top();
        top := t;
        if expirationQueue[t].key == key {
          sweeper := Notified(sweeper);
        }
      }
      InvStep(before, Event.Remove(key, top));
    }

    /** The number of physical entries; every key that get returns is among them. */
    method Size() returns (n: nat)
      requires Valid()
      ensures n == if isStopping then 0 else |lookupMap|
      ensures !isStopping ==> forall k: Key :: Live(writes, k, clock).Some? ==> k in lookupMap
    {
      if isStopping {
        return 0;
      }
      forall k: Key ensures Live(writes, k, clock).Some? ==> k in lookupMap {
        PresenceBounds(Model(), k);
      }
      return |lookupMap|;
    }

    method SetStop()
      requires Valid()
      modifies this
      ensures Valid() && Model() == Step(old(Model()), Event.SetStop)
    {
      InvStep(Model(), Event.SetStop);
      isStopping := true;
      stops := stops + 1;
    }

    /** The top of the sweeper's loop: fix the deadline, then test the predicate once. */
    method Arm(now: Time) returns (ghost top: nat)
      requires Valid() && sweeper.Arming? && now == clock
      modifies this`sweeper
      ensures Enabled(old(Model()), Event.Arm(top))
      ensures Valid() && Model() == Step(old(Model()), Event.Arm(top))
    {
      ghost var before := Model();
      top := 0;
      var deadline: Option<Time> := None;
      if expirationQueue != [] {
        var t := Top();
        top := t;
        deadline := Some(expirationQueue[t].expiration);
      }
      InvStep(before, Event.Arm(top));
      ghost var next := TestWait(before, deadline);
      sweeper := next;
    }

    /**
     The loop of a sweep: while the top has expired, pop it and drop its map entry unless
     the key has been put again since. It leaves exactly what has not expired, whichever
     top comes first.
     */
    method PopExpired(now: Time)
      requires Paired(expirationQueue, lookupMap)
      modifies this`expirationQueue, this`lookupMap, this`pops
      ensures expirationQueue == Keep(old(expirationQueue), now)
      ensures lookupMap == KeepMap(old(lookupMap), now)
      ensures pops + |expirationQueue| == old(pops + |expirationQueue|)
    {
      hide Keep, KeepMap;
      while Due(expirationQueue, now)
        invariant Paired(expirationQueue, lookupMap)
        invariant Keep(expirationQueue, now) == Keep(old(expirationQueue), now)
        invariant KeepMap(lookupMap, now) == KeepMap(old(lookupMap), now)
        invariant pops + |expirationQueue| == old(pops + |expirationQueue|)
        decreases |expirationQueue|
      {
        var top := Top();
        var expired := expirationQueue[top];
        PopPaired(expirationQueue, lookupMap, top, now);
        KeepWithout(expirationQueue, top, now);
        expirationQueue := Without(expirationQueue, top);
        pops := pops + 1;
        if expired.key in lookupMap && lookupMap[expired.key].generation == expired.generation {
          lookupMap := lookupMap - {expired.key};
        }
      }
      KeepAll(expirationQueue, now);
      NothingExpired(expirationQueue, lookupMap, now);
    }

    /** One pass of the sweeper, which pops at least once. */
    method SweepPass(now: Time)
      requires Valid() && sweeper.Sweeping? && now == clock
      modifies this
      ensures Valid() && Model() == Step(old(Model()), Event.Sweep)
      ensures |expirationQueue| < |old(expirationQueue)|
    {
      SweepFacts(Model());
      hide Inv, Keep, KeepMap;
      PopExpired(now);
      passes := passes + 1;
      sweeper := Arming;
    }

    /** Time passing, wake-ups, notify_all, and the re-tests inside the wait change no field. */
    ghost method Schedule(e: Event)
      requires Valid() && Enabled(Model(), e)
      requires e.Tick? || e.Spurious? || e.Recheck? || e.Timeout? || e.NotifyStop?
      modifies this`clock, this`sweeper, this`stops
      ensures Valid() && Model() == Step(old(Model()), e)
    {
      InvStep(Model(), e);
      var next := Step(Model(), e);
      clock, sweeper, stops := next.clock, next.sweeper, next.stops;
    }
  }

  lemma SweepFacts(s: State)
    requires Inv(s) && Enabled(s, Event.Sweep)
    ensures Paired(s.heap, s.lookup) && Inv(Step(s, Event.Sweep)) && |Keep(s.heap, s.clock)| < |s.heap|
  {
    InvStep(s, Event.Sweep);
    KeepShrinks(s.heap, s.clock);
  }

  /** With no expired heap entry there is no expired map entry. */
  lemma NothingExpired(heap: seq<HeapEntry>, lookup: map<Key, MapEntry>, now: Time)
    requires Paired(heap, lookup) && !Due(heap, now)
    ensures KeepMap(lookup, now) == lookup
  {
    forall k | k in lookup ensures lookup[k].expiration > now {
      var i :| 0 <= i < |heap| && heap[i] == HeapEntry(lookup[k].expiration, lookup[k].generation, k);
    }
  }
}
