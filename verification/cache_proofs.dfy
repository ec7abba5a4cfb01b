/**
 The cache refines its specification under every interleaving of writes, reads and
 sweeps; sweeps are filters; the sweeper pops on every pass and is notified when it
 must be; and exactly when it can oversleep.
 */
module CacheProofs {
  import opened Common
  import opened CacheModel

  // ----- the invariant -----

  ghost predicate Increasing(heap: seq<HeapEntry>)
  {
    forall i, j :: 0 <= i < j < |heap| ==> heap[i].generation < heap[j].generation
  }

  /** Generations stamp pushes uniquely, and each map entry has its heap entry. */
  ghost predicate Paired(heap: seq<HeapEntry>, lookup: map<Key, MapEntry>)
  {
    && Increasing(heap)
    && forall k :: k in lookup ==> HeapEntry(lookup[k].expiration, lookup[k].generation, k) in heap
  }

  ghost predicate Stamped(s: State)
  {
    forall h :: h in s.heap ==> h.generation <= s.generation
  }

  /** The last write to the key, if any. */
  ghost function LastWrite(writes: seq<Write>, key: Key): Option<Write>
  {
    if writes == [] then None else
    var w := writes[|writes| - 1];
    if w.key == key then Some(w) else LastWrite(writes[..|writes| - 1], key)
  }

  /** The map holds the last write to k, or that write is a remove or has expired. */
  ghost predicate AgreesOn(s: State, k: Key)
  {
    match LastWrite(s.writes, k)
    case None => k !in s.lookup
    case Some(Removed(_)) => k !in s.lookup
    case Some(Stored(_, value, at, ttl)) =>
      if k in s.lookup then s.lookup[k].value == value && s.lookup[k].expiration == at + ttl
      else at + ttl <= s.clock
  }

  ghost predicate Agrees(s: State)
  {
    forall k: Key :: AgreesOn(s, k)
  }

  /** Where the sweeper stands is justified by what the heap holds. */
  ghost predicate Armed(s: State)
  {
    match s.sweeper
    case Asleep(Some(d)) => Due(s.heap, d)
    case Awake(Some(d)) => Due(s.heap, d)
    case Sweeping => Due(s.heap, s.clock)
    case Exited => s.isStopping
    case _ => true
  }

  ghost predicate Counted(s: State)
  {
    s.pops + |s.heap| == s.generation && s.passes <= s.pops
  }

  /** A sleeping sweeper will hear of a stop. */
  ghost predicate StopHeard(s: State)
  {
    s.isStopping && s.sweeper.Asleep? ==> s.stops > 0
  }

  ghost predicate Inv(s: State)
  {
    Paired(s.heap, s.lookup) && Stamped(s) && Agrees(s) && Armed(s) && Counted(s) && StopHeard(s)
  }

  // ----- filtering the heap -----

  lemma {:induction false} KeepMember(heap: seq<HeapEntry>, now: Time, h: HeapEntry)
    ensures h in Keep(heap, now) <==> h in heap && h.expiration > now
  {
    if heap != [] {
      var n := |heap| - 1;
      KeepMember(heap[..n], now, h);
      assert heap == heap[..n] + [heap[n]];
    }
  }

  lemma KeepMembers(heap: seq<HeapEntry>, now: Time)
    ensures forall h :: h in Keep(heap, now) <==> h in heap && h.expiration > now
  {
    forall h ensures h in Keep(heap, now) <==> h in heap && h.expiration > now {
      KeepMember(heap, now, h);
    }
  }

  lemma {:induction false} KeepIncreasing(heap: seq<HeapEntry>, now: Time)
    requires Increasing(heap)
    ensures Increasing(Keep(heap, now))
  {
    if heap != [] {
      var n := |heap| - 1;
      KeepIncreasing(heap[..n], now);
      KeepMembers(heap[..n], now);
      var front := Keep(heap[..n], now);
      forall i | 0 <= i < |front| ensures front[i].generation < heap[n].generation {
        assert front[i] in heap[..n];
      }
    }
  }

  /** A heap with an expired entry loses at least that. */
  lemma {:induction false} KeepShrinks(heap: seq<HeapEntry>, now: Time)
    requires Due(heap, now)
    ensures |Keep(heap, now)| < |heap|
  {
    var n := |heap| - 1;
    if heap[n].expiration > now {
      var i :| 0 <= i < |heap| && heap[i].expiration <= now;
      assert heap[..n][i] == heap[i];
      KeepShrinks(heap[..n], now);
    }
  }

  lemma {:induction false} KeepAll(heap: seq<HeapEntry>, now: Time)
    requires !Due(heap, now)
    ensures Keep(heap, now) == heap
  {
    if heap != [] {
      var n := |heap| - 1;
      DueFront(heap, now);
      hide Due;
      KeepAll(heap[..n], now);
    }
  }

  lemma DueFront(heap: seq<HeapEntry>, now: Time)
    requires heap != []
    ensures Due(heap, now) <==> Due(heap[..|heap| - 1], now) || heap[|heap| - 1].expiration <= now
  {
    var n := |heap| - 1;
    assert forall i :: 0 <= i < n ==> heap[..n][i] == heap[i];
    if heap[n].expiration > now && Due(heap, now) {
      var i :| 0 <= i < |heap| && heap[i].expiration <= now;
      assert heap[..n][i].expiration <= now;
    }
  }

  function Without(heap: seq<HeapEntry>, i: nat): seq<HeapEntry>
    requires i < |heap|
  {
    heap[..i] + heap[i + 1..]
  }

  /** Popping an expired entry first does not change what the sweep leaves. */
  lemma {:induction false} KeepWithout(heap: seq<HeapEntry>, i: nat, now: Time)
    requires i < |heap| && heap[i].expiration <= now
    ensures Keep(Without(heap, i), now) == Keep(heap, now)
  {
    var n := |heap| - 1;
    if i == n {
      assert Without(heap, i) == heap[..n];
    } else {
      assert Without(heap, i)[..n - 1] == Without(heap[..n], i);
      KeepWithout(heap[..n], i, now);
    }
  }

  // ----- one pop -----

  /** The body of the sweep's loop after the pop: drop the map entry the popped heap entry stands for, and no other. */
  function AfterPop(lookup: map<Key, MapEntry>, h: HeapEntry): map<Key, MapEntry>
  {
    if h.key in lookup && lookup[h.key].generation == h.generation then lookup - {h.key} else lookup
  }

  lemma InHeapWithout(heap: seq<HeapEntry>, i: nat, h: HeapEntry)
    requires i < |heap| && h in heap && h != heap[i]
    ensures h in Without(heap, i)
  {
    var j :| 0 <= j < |heap| && heap[j] == h;
    if j < i {
      assert Without(heap, i)[j] == h;
    } else {
      assert Without(heap, i)[j - 1] == h;
    }
  }

  /**
   A pop keeps heap and map paired, and a map entry goes only if it has itself
   expired: a stale heap entry removes nothing.
   */
  lemma PopPaired(heap: seq<HeapEntry>, lookup: map<Key, MapEntry>, i: nat, now: Time)
    requires Paired(heap, lookup) && i < |heap| && heap[i].expiration <= now
    ensures Paired(Without(heap, i), AfterPop(lookup, heap[i]))
    ensures KeepMap(AfterPop(lookup, heap[i]), now) == KeepMap(lookup, now)
    ensures forall k :: k in lookup && k !in AfterPop(lookup, heap[i]) ==> lookup[k].expiration <= now
  {
    if heap[i].key in lookup && lookup[heap[i].key].generation == heap[i].generation {
      PoppedStandsFor(heap, lookup, i);
    }
    var after := AfterPop(lookup, heap[i]);
    forall k | k in after ensures HeapEntry(after[k].expiration, after[k].generation, k) in Without(heap, i) {
      InHeapWithout(heap, i, HeapEntry(lookup[k].expiration, lookup[k].generation, k));
    }
  }

  lemma PoppedStandsFor(heap: seq<HeapEntry>, lookup: map<Key, MapEntry>, i: nat)
    requires Paired(heap, lookup) && i < |heap|
    requires heap[i].key in lookup && lookup[heap[i].key].generation == heap[i].generation
    ensures lookup[heap[i].key].expiration == heap[i].expiration
  {
    var e := lookup[heap[i].key];
    var j :| 0 <= j < |heap| && heap[j] == HeapEntry(e.expiration, e.generation, heap[i].key);
    assert i == j;
  }

  // ----- preservation -----

  lemma PairedSweep(heap: seq<HeapEntry>, lookup: map<Key, MapEntry>, now: Time)
    requires Paired(heap, lookup)
    ensures Paired(Keep(heap, now), KeepMap(lookup, now))
  {
    KeepIncreasing(heap, now);
    KeepMembers(heap, now);
  }

  lemma PairedStep(s: State, e: Event)
    requires Paired(s.heap, s.lookup) && Stamped(s) && Enabled(s, e)
    ensures Paired(Step(s, e).heap, Step(s, e).lookup)
  {
    if e.Sweep? {
      PairedSweep(s.heap, s.lookup, s.clock);
    } else if e.Put? && !s.isStopping {
      PairedPush(s, e.key, e.ttl, e.value);
      hide Paired, Pushed, Stamped;
    }
  }

  lemma PairedPush(s: State, key: Key, ttl: int, value: Value)
    requires Paired(s.heap, s.lookup) && Stamped(s)
    ensures Paired(Pushed(s, key, ttl), s.lookup[key := MapEntry(s.clock + ttl, s.generation + 1, value)])
  {
    var heap := Pushed(s, key, ttl);
    assert forall h :: h in s.heap ==> h in heap;
    assert forall i :: 0 <= i < |s.heap| ==> s.heap[i] in s.heap;
    assert heap[|s.heap|] in heap;
  }

  lemma StampedStep(s: State, e: Event)
    requires Stamped(s) && Enabled(s, e)
    ensures Stamped(Step(s, e))
  {
    if e.Sweep? {
      KeepMembers(s.heap, s.clock);
    }
  }

  lemma AgreesStep(s: State, e: Event)
    requires Agrees(s) && Enabled(s, e)
    ensures Agrees(Step(s, e))
  {
    var s' := Step(s, e);
    forall k: Key ensures AgreesOn(s', k) {
      assert AgreesOn(s, k);
      if s'.writes != s.writes {
        assert s'.writes[..|s'.writes| - 1] == s.writes;
      }
    }
  }

  lemma DuePushed(heap: seq<HeapEntry>, h: HeapEntry, d: Time)
    requires Due(heap, d)
    ensures Due(heap + [h], d)
  {
    var i :| 0 <= i < |heap| && heap[i].expiration <= d;
    assert (heap + [h])[i] == heap[i];
  }

  lemma ArmedStep(s: State, e: Event)
    requires Armed(s) && Enabled(s, e)
    ensures Armed(Step(s, e))
  {
    if e.Put? && !s.isStopping {
      var h := Pushed(s, e.key, e.ttl)[|s.heap|];
      match s.sweeper
      case Asleep(Some(d)) => DuePushed(s.heap, h, d);
      case Awake(Some(d)) => DuePushed(s.heap, h, d);
      case Sweeping => DuePushed(s.heap, h, s.clock);
      case _ =>
    }
  }

  lemma CountedStep(s: State, e: Event)
    requires Counted(s) && Armed(s) && Enabled(s, e)
    ensures Counted(Step(s, e))
  {
    if e.Sweep? {
      KeepShrinks(s.heap, s.clock);
    }
  }

  lemma InvInit(clock: Time)
    ensures Inv(Init(clock))
  {
  }

  lemma InvStep(s: State, e: Event)
    requires Inv(s) && Enabled(s, e)
    ensures Inv(Step(s, e))
  {
    PairedStep(s, e);
    StampedStep(s, e);
    AgreesStep(s, e);
    ArmedStep(s, e);
    CountedStep(s, e);
  }

  lemma {:induction false} InvRun(s: State, es: seq<Event>)
    requires Inv(s) && Feasible(s, es)
    ensures Inv(Run(s, es))
    decreases |es|
  {
    if es != [] {
      InvStep(s, es[0]);
      InvRun(Step(s, es[0]), es[1..]);
    }
  }

  /** Some run of a fresh cache leads here. */
  ghost predicate Reachable(s: State)
  {
    exists clock: Time, es: seq<Event> :: Feasible(Init(clock), es) && Run(Init(clock), es) == s
  }

  lemma ReachableInv(s: State)
    requires Reachable(s)
    ensures Inv(s)
  {
    var clock: Time, es :| Feasible(Init(clock), es) && Run(Init(clock), es) == s;
    InvInit(clock);
    InvRun(Init(clock), es);
  }

  // ----- refinement -----

  lemma {:induction false} LiveIsLastWrite(writes: seq<Write>, key: Key, now: Time)
    ensures Live(writes, key, now) ==
            match LastWrite(writes, key)
            case Some(Stored(_, value, at, ttl)) => (if at + ttl > now then Some(value) else None)
            case _ => None
  {
    if writes != [] {
      LiveIsLastWrite(writes[..|writes| - 1], key, now);
    }
  }

  /** After any run, get answers as the log of writes says; after a stop it answers nothing. */
  lemma GetRefinesSpec(clock: Time, es: seq<Event>, key: Key)
    requires Feasible(Init(clock), es)
    ensures var s := Run(Init(clock), es);
            Get(s, key) == if s.isStopping then None else Live(s.writes, key, s.clock)
  {
    InvInit(clock);
    InvRun(Init(clock), es);
    var s := Run(Init(clock), es);
    LiveIsLastWrite(s.writes, key, s.clock);
    assert AgreesOn(s, key);
  }

  /** A sweep leaves exactly the unexpired heap and map entries, and no get can tell that it happened. */
  lemma SweepIsInvisibleFilter(s: State)
    requires Reachable(s) && Enabled(s, Sweep)
    ensures var s' := Step(s, Sweep);
            && (forall h :: h in s'.heap <==> h in s.heap && h.expiration > s.clock)
            && (forall k :: k in s'.lookup <==> k in s.lookup && s.lookup[k].expiration > s.clock)
            && (forall k :: k in s'.lookup ==> s'.lookup[k] == s.lookup[k])
            && (forall k :: Get(s', k) == Get(s, k))
            && !Due(s'.heap, s.clock) && |s'.heap| < |s.heap|
  {
    ReachableInv(s);
    KeepMembers(s.heap, s.clock);
    KeepShrinks(s.heap, s.clock);
    assert forall i :: 0 <= i < |Keep(s.heap, s.clock)| ==> Keep(s.heap, s.clock)[i] in Keep(s.heap, s.clock);
  }

  /**
   A key that get would return is physically present; a key whose last write was not
   a put is physically absent. In between, presence depends on which sweeps ran.
   */
  lemma PresenceBounds(s: State, key: Key)
    requires Inv(s) && !s.isStopping
    ensures Live(s.writes, key, s.clock).Some? ==> key in s.lookup
    ensures key in s.lookup ==> LastWrite(s.writes, key).Some? && LastWrite(s.writes, key).value.Stored?
  {
    LiveIsLastWrite(s.writes, key, s.clock);
    assert AgreesOn(s, key);
  }

  // ----- the sweeper -----

  /** Only a sweep pops, so the least expiration cannot rise while the sweeper waits. */
  lemma {:induction false} OnlySweepsPop(s: State, es: seq<Event>)
    requires Feasible(s, es) && forall i :: 0 <= i < |es| ==> !es[i].Sweep?
    ensures s.heap <= Run(s, es).heap
    decreases |es|
  {
    if es != [] {
      OnlySweepsPop(Step(s, es[0]), es[1..]);
    }
  }

  /** A wait that times out finds an expired entry: the predicate it returns is true. */
  lemma TimeoutFindsDue(s: State)
    requires Reachable(s) && Enabled(s, Timeout)
    ensures Due(s.heap, s.clock)
  {
    ReachableInv(s);
    var i :| 0 <= i < |s.heap| && s.heap[i].expiration <= s.sweeper.deadline.value;
  }

  ghost function Puts(writes: seq<Write>): nat
  {
    if writes == [] then 0 else Puts(writes[..|writes| - 1]) + if writes[|writes| - 1].Stored? then 1 else 0
  }

  lemma PutsStep(s: State, e: Event)
    requires Enabled(s, e) && s.generation == Puts(s.writes)
    ensures Step(s, e).generation == Puts(Step(s, e).writes)
  {
    var s' := Step(s, e);
    if s'.writes != s.writes {
      assert s'.writes[..|s'.writes| - 1] == s.writes;
    }
  }

  lemma {:induction false} GenerationCountsPuts(s: State, es: seq<Event>)
    requires Feasible(s, es) && s.generation == Puts(s.writes)
    ensures Run(s, es).generation == Puts(Run(s, es).writes)
    decreases |es|
  {
    if es != [] {
      PutsStep(s, es[0]);
      GenerationCountsPuts(Step(s, es[0]), es[1..]);
    }
  }

  /** Every pass pops: there are never more passes than accepted puts, whatever wakes the sweeper. */
  lemma PassesAtMostPuts(clock: Time, es: seq<Event>)
    requires Feasible(Init(clock), es)
    ensures var s := Run(Init(clock), es);
            s.passes <= s.pops == Puts(s.writes) - |s.heap|
  {
    InvInit(clock);
    InvRun(Init(clock), es);
    GenerationCountsPuts(Init(clock), es);
  }

  /** A put that fills an empty heap or lowers its least expiration wakes the sweeper, whatever top is reported. */
  lemma PutWakesSweeper(s: State, key: Key, value: Value, ttl: int, top: nat)
    requires Enabled(s, Put(key, value, ttl, top)) && !s.isStopping
    requires forall i :: 0 <= i < |s.heap| ==> s.clock + ttl < s.heap[i].expiration
    ensures !Step(s, Put(key, value, ttl, top)).sweeper.Asleep?
  {
    var heap := Pushed(s, key, ttl);
    assert heap[top].expiration <= heap[|s.heap|].expiration;
  }

  ghost predicate Least(heap: seq<HeapEntry>, h: HeapEntry)
  {
    h in heap && forall g :: g in heap ==> h.expiration <= g.expiration
  }

  lemma TopIsLeast(heap: seq<HeapEntry>, top: nat)
    requires IsTop(heap, top)
    ensures Least(heap, heap[top])
  {
  }

  /** A put wakes a sleeping sweeper if all least entries, its own included, have its key, and not if none has. */
  lemma PutWakesIff(s: State, key: Key, value: Value, ttl: int, top: nat)
    requires Enabled(s, Put(key, value, ttl, top)) && !s.isStopping && s.sweeper.Asleep?
    ensures var heap := s.heap + [HeapEntry(s.clock + ttl, s.generation + 1, key)];
            var w := Step(s, Put(key, value, ttl, top)).sweeper;
            && ((forall h :: Least(heap, h) ==> h.key == key) ==> w == Awake(s.sweeper.deadline))
            && ((forall h :: Least(heap, h) ==> h.key != key) ==> w == s.sweeper)
  {
    TopIsLeast(Pushed(s, key, ttl), top);
  }

  /** So does a remove, whose heap is unchanged. */
  lemma RemoveWakesIff(s: State, key: Key, top: nat)
    requires Enabled(s, Remove(key, top)) && !s.isStopping && s.sweeper.Asleep?
    ensures var w := Step(s, Remove(key, top)).sweeper;
            && (s.heap != [] && (forall h :: Least(s.heap, h) ==> h.key == key) ==> w == Awake(s.sweeper.deadline))
            && ((forall h :: Least(s.heap, h) ==> h.key != key) ==> w == s.sweeper)
  {
    if s.heap != [] {
      TopIsLeast(s.heap, top);
    }
  }

  // ----- eviction on time -----

  predicate NoSweep(es: seq<Event>)
  {
    forall i :: 0 <= i < |es| ==> !es[i].Sweep?
  }

  /** Left alone: time passes and the sweeper takes its own steps; nobody calls and no wait wakes for nothing. */
  predicate Alone(es: seq<Event>)
  {
    forall i :: 0 <= i < |es| ==> es[i].Tick? || SweeperStep(es[i])
  }

  predicate SweeperStep(e: Event)
  {
    e.Arm? || e.Recheck? || e.Timeout? || e.Sweep?
  }

  /** The deadline of a wait that begins with this heap, whichever top the heap reports. */
  ghost predicate DeadlineOf(heap: seq<HeapEntry>, deadline: Option<Time>)
  {
    match deadline
    case None => heap == []
    case Some(d) => (exists g :: g in heap && g.expiration == d) && forall g :: g in heap ==> d <= g.expiration
  }

  /** A wait under way, if there is one, has this deadline. */
  ghost predicate WaitsUntil(w: Sweeper, deadline: Option<Time>)
  {
    (w.Asleep? || w.Awake? ==> w.deadline == deadline) && !w.Arming?
  }

  lemma {:induction false} WaitKeepsDeadline(s: State, es: seq<Event>, deadline: Option<Time>)
    requires WaitsUntil(s.sweeper, deadline) && Feasible(s, es) && NoSweep(es)
    ensures WaitsUntil(Run(s, es).sweeper, deadline)
    decreases |es|
  {
    if es != [] {
      WaitKeepsDeadline(Step(s, es[0]), es[1..], deadline);
    }
  }

  /**
   From the moment a wait begins until its sweep, and whatever is put, removed or
   notified meanwhile, its deadline is the least expiration of the heap it began with,
   or none if that heap was empty.
   */
  lemma DeadlineIsFixed(s: State, top: nat, es: seq<Event>)
    requires Enabled(s, Arm(top)) && Feasible(Step(s, Arm(top)), es) && NoSweep(es)
    ensures var t := Run(Step(s, Arm(top)), es);
            !t.sweeper.Arming? && (t.sweeper.Asleep? || t.sweeper.Awake? ==> DeadlineOf(s.heap, t.sweeper.deadline))
  {
    var deadline := if s.heap == [] then None else Some(s.heap[top].expiration);
    assert s.heap != [] ==> s.heap[top] in s.heap;
    WaitKeepsDeadline(Step(s, Arm(top)), es, deadline);
  }

  /** A sleeping sweeper wakes by the passing of time alone exactly if the heap was not empty when its wait began. */
  lemma WakesByItselfIff(s: State, top: nat, es: seq<Event>)
    requires Enabled(s, Arm(top)) && Feasible(Step(s, Arm(top)), es) && NoSweep(es)
    requires Run(Step(s, Arm(top)), es).sweeper.Asleep?
    ensures var t := Run(Step(s, Arm(top)), es);
            (exists dt: nat :: Enabled(Step(t, Tick(dt)), Timeout)) <==> s.heap != []
  {
    DeadlineIsFixed(s, top, es);
    var t := Run(Step(s, Arm(top)), es);
    if t.sweeper.deadline.Some? {
      var d := t.sweeper.deadline.value;
      var dt: nat := if d > t.clock then d - t.clock else 0;
      assert Enabled(Step(t, Tick(dt)), Timeout);
    }
  }

  /** Before its deadline, and for ever without one, a sleeping sweeper left alone evicts nothing. */
  lemma {:induction false} NothingBeforeDeadline(s: State, es: seq<Event>)
    requires s.sweeper.Asleep? && Feasible(s, es) && Alone(es)
    requires s.sweeper.deadline.Some? ==> Run(s, es).clock < s.sweeper.deadline.value
    ensures Run(s, es) == s.(clock := Run(s, es).clock) && s.clock <= Run(s, es).clock
    decreases |es|
  {
    if es != [] {
      ClockGrows(Step(s, es[0]), es[1..]);
      assert es[0] == es[..1][0];
      NothingBeforeDeadline(Step(s, es[0]), es[1..]);
    }
  }

  lemma {:induction false} ClockGrows(s: State, es: seq<Event>)
    requires Feasible(s, es)
    ensures s.clock <= Run(s, es).clock
    decreases |es|
  {
    if es != [] {
      ClockGrows(Step(s, es[0]), es[1..]);
    }
  }

  /** At its deadline the wait times out, and the pass that follows clears everything that has expired. */
  lemma TimeoutClearsExpired(s: State, h: HeapEntry)
    requires s.sweeper.Asleep? && s.sweeper.deadline.Some? && s.sweeper.deadline.value <= s.clock && !s.isStopping
    ensures Enabled(s, Timeout) && Enabled(Step(s, Timeout), Sweep)
    ensures h.expiration <= s.clock ==> h !in Step(Step(s, Timeout), Sweep).heap
  {
    KeepMember(s.heap, s.clock, h);
  }

  /** No step of the sweeper's own is possible: it sleeps before its deadline, or has exited. */
  ghost predicate SweeperIdle(s: State)
  {
    forall e :: SweeperStep(e) ==> !Enabled(s, e)
  }

  ghost function SweeperSteps(es: seq<Event>): nat
  {
    if es == [] then 0 else (if SweeperStep(es[0]) then 1 else 0) + SweeperSteps(es[1..])
  }

  /** Steps the sweeper can take before it rests, however time passes: three for each entry, and one to test. */
  ghost function StepsToRest(s: State): int
  {
    match s.sweeper
    case Exited => 0
    case Sweeping => 3 * |s.heap| - 1
    case Asleep(_) => 3 * |s.heap|
    case _ => 3 * |s.heap| + 1
  }

  /** Left alone the sweeper does come to rest: each entry costs it at most three steps. */
  lemma {:induction false} SweeperRests(s: State, es: seq<Event>)
    requires Inv(s) && Feasible(s, es) && Alone(es)
    ensures SweeperSteps(es) + StepsToRest(Run(s, es)) <= StepsToRest(s)
    ensures StepsToRest(Run(s, es)) >= 0
    decreases |es|
  {
    hide Inv;
    RestNonNegative(s);
    if es != [] {
      InvStep(s, es[0]);
      RestStep(s, es[0]);
      SweeperRests(Step(s, es[0]), es[1..]);
    }
  }

  lemma RestNonNegative(s: State)
    requires Inv(s)
    ensures StepsToRest(s) >= 0
  {
  }

  lemma RestStep(s: State, e: Event)
    requires Inv(s) && Enabled(s, e) && (e.Tick? || SweeperStep(e))
    ensures StepsToRest(Step(s, e)) + (if SweeperStep(e) then 1 else 0) <= StepsToRest(s)
  {
    if e.Sweep? {
      KeepShrinks(s.heap, s.clock);
    }
  }

  /** The entry is gone from the heap, and the map entry it stands for from the map. */
  ghost predicate Evicted(s: State, h: HeapEntry)
  {
    && h !in s.heap
    && (h.key in s.lookup ==> HeapEntry(s.lookup[h.key].expiration, s.lookup[h.key].generation, h.key) != h)
  }

  /** Left alone, once the entry's time has come the sweeper does not rest before it has evicted it. */
  ghost predicate EvictedOnTime(s: State, h: HeapEntry)
  {
    forall es :: Feasible(s, es) && Alone(es) && Run(s, es).clock >= h.expiration && SweeperIdle(Run(s, es)) ==>
      Evicted(Run(s, es), h)
  }

  predicate NoStop(es: seq<Event>)
  {
    forall i :: 0 <= i < |es| ==> !es[i].SetStop?
  }

  /** The same whatever anybody puts, removes or notifies meanwhile, as long as nobody stops the cache. */
  ghost predicate EvictedInAnyCompany(s: State, h: HeapEntry)
  {
    forall es :: Feasible(s, es) && NoStop(es) && Run(s, es).clock >= h.expiration && SweeperIdle(Run(s, es)) ==>
      Evicted(Run(s, es), h)
  }

  function Later(a: Time, b: Time): Time
  {
    if a < b then b else a
  }

  /** While h is in the heap, the sweeper is at work or will be by the given time. */
  ghost predicate OnItsWay(s: State, h: HeapEntry, limit: Time)
  {
    && !s.isStopping && !s.sweeper.Exited? && h.expiration <= limit && h.generation <= s.generation
    && (h in s.heap ==>
          && (s.sweeper.Asleep? ==> WakesBy(s.sweeper.deadline, limit))
          && (s.sweeper.Awake? ==> Due(s.heap, s.clock) || WakesBy(s.sweeper.deadline, limit)))
  }

  predicate WakesBy(deadline: Option<Time>, limit: Time)
  {
    deadline.Some? && deadline.value <= limit
  }

  lemma OnItsWayStep(s: State, e: Event, h: HeapEntry, limit: Time)
    requires OnItsWay(s, h, limit) && Enabled(s, e) && !e.SetStop?
    ensures OnItsWay(Step(s, e), h, limit)
  {
    if e.Put? {
      OnItsWayPut(s, e.key, e.value, e.ttl, e.top, h, limit);
    } else if e.Tick? && Due(s.heap, s.clock) {
      DueLater(s.heap, s.clock, s.clock + e.dt);
    }
  }

  lemma DueLater(heap: seq<HeapEntry>, d: Time, later: Time)
    requires Due(heap, d) && d <= later
    ensures Due(heap, later)
  {
  }

  /** A put adds an entry of its own, and wakes the sweeper or leaves it where it is. */
  lemma OnItsWayPut(s: State, key: Key, value: Value, ttl: int, top: nat, h: HeapEntry, limit: Time)
    requires OnItsWay(s, h, limit) && Enabled(s, Put(key, value, ttl, top))
    ensures OnItsWay(Step(s, Put(key, value, ttl, top)), h, limit)
  {
    var pushed := HeapEntry(s.clock + ttl, s.generation + 1, key);
    assert h in s.heap + [pushed] <==> h in s.heap;
    if Due(s.heap, s.clock) {
      DuePushed(s.heap, pushed, s.clock);
    }
    hide Due;
  }

  lemma {:induction false} OnItsWayRun(s: State, es: seq<Event>, h: HeapEntry, limit: Time)
    requires OnItsWay(s, h, limit) && Feasible(s, es) && NoStop(es)
    ensures OnItsWay(Run(s, es), h, limit)
    decreases |es|
  {
    hide OnItsWay;
    if es != [] {
      OnItsWayStep(s, es[0], h, limit);
      OnItsWayRun(Step(s, es[0]), es[1..], h, limit);
    }
  }

  /** An idle sweeper sleeps and its deadline has not come. */
  lemma IdleSleeps(s: State)
    requires SweeperIdle(s) && !s.sweeper.Exited?
    ensures s.sweeper.Asleep? && (s.sweeper.deadline.Some? ==> s.clock < s.sweeper.deadline.value)
  {
    assert !Enabled(s, Recheck) && !Enabled(s, Timeout) && !Enabled(s, Sweep);
    if s.sweeper.Arming? {
      var e := ArmEvent(s);
    }
  }

  lemma SleepingIsIdle(s: State)
    requires s.sweeper.Asleep? && (s.sweeper.deadline.Some? ==> s.clock < s.sweeper.deadline.value)
    ensures SweeperIdle(s)
  {
  }

  lemma OnItsWayEvicts(s: State, es: seq<Event>, h: HeapEntry, limit: Time)
    requires Inv(s) && OnItsWay(s, h, limit) && limit == Later(s.clock, h.expiration)
    requires Feasible(s, es) && NoStop(es) && Run(s, es).clock >= h.expiration && SweeperIdle(Run(s, es))
    ensures Evicted(Run(s, es), h)
  {
    OnItsWayRun(s, es, h, limit);
    ClockGrows(s, es);
    IdleSleeps(Run(s, es));
    InvRun(s, es);
  }

  lemma AlwaysEvicts(s: State, h: HeapEntry, limit: Time)
    requires Inv(s) && OnItsWay(s, h, limit) && limit == Later(s.clock, h.expiration)
    ensures EvictedInAnyCompany(s, h)
  {
    hide Inv, Evicted, OnItsWay;
    forall es | Feasible(s, es) && NoStop(es) && Run(s, es).clock >= h.expiration && SweeperIdle(Run(s, es))
      ensures Evicted(Run(s, es), h)
    {
      OnItsWayEvicts(s, es, h, limit);
    }
  }

  lemma CompanyIncludesAlone(s: State, h: HeapEntry)
    requires EvictedInAnyCompany(s, h)
    ensures EvictedOnTime(s, h)
  {
    hide Evicted;
    forall es | Feasible(s, es) && Alone(es) && Run(s, es).clock >= h.expiration && SweeperIdle(Run(s, es))
      ensures Evicted(Run(s, es), h)
    {
      assert NoStop(es);
    }
  }

  /** Just letting the entry's time come shows an eviction that is late. */
  lemma LateAsleep(s: State, h: HeapEntry)
    requires s.sweeper.Asleep? && h in s.heap
    requires s.sweeper.deadline.Some? ==> Later(s.clock, h.expiration) < s.sweeper.deadline.value
    ensures !EvictedOnTime(s, h)
  {
    var dt: nat := Later(s.clock, h.expiration) - s.clock;
    RunFirst(s, Tick(dt), []);
    var es := [Tick(dt)] + [];
    assert es[0] == Tick(dt);
    SleepingIsIdle(Run(s, es));
    assert !Evicted(Run(s, es), h);
  }

  /** A sweeper that has been woken but finds nothing due sleeps again, and then the same shows. */
  lemma LateAwake(s: State, h: HeapEntry)
    requires s.sweeper.Awake? && !s.isStopping && !Due(s.heap, s.clock) && h in s.heap
    requires s.sweeper.deadline.Some? ==> Later(s.clock, h.expiration) < s.sweeper.deadline.value
    ensures !EvictedOnTime(s, h)
  {
    var s' := Step(s, Recheck);
    var dt: nat := Later(s.clock, h.expiration) - s.clock;
    RunFirst(s', Tick(dt), []);
    RunFirst(s, Recheck, [Tick(dt)] + []);
    var es := [Recheck] + ([Tick(dt)] + []);
    assert es == [Recheck, Tick(dt)];
    SleepingIsIdle(Run(s, es));
    assert !Evicted(Run(s, es), h);
  }

  /** What decides: the heap with which the wait began, or a pass that is due or under way as it is. */
  ghost predicate SweptInTime(heap: seq<HeapEntry>, t: State, h: HeapEntry)
  {
    || (!t.sweeper.Asleep? && Due(t.heap, t.clock))
    || exists g :: g in heap && g.expiration <= Later(t.clock, h.expiration)
  }

  /**
   Exactly when eviction is on time. Take any moment from the beginning of a wait to its
   sweep, with any puts, removes and notifies in between: an entry now in the heap is
   evicted on time if and only if the heap with which the wait began held an entry due
   no later than it (or than now, if its time has already passed), or the sweeper is
   awake with something due. Then it is evicted on time whatever happens meanwhile, and
   otherwise not even if nothing does.
   */
  lemma EvictedOnTimeIff(s: State, top: nat, es: seq<Event>, h: HeapEntry)
    requires Reachable(s) && Enabled(s, Arm(top)) && Feasible(Step(s, Arm(top)), es) && NoSweep(es)
    requires var t := Run(Step(s, Arm(top)), es); !t.isStopping && h in t.heap
    ensures var t := Run(Step(s, Arm(top)), es);
            && (EvictedOnTime(t, h) <==> SweptInTime(s.heap, t, h))
            && (EvictedInAnyCompany(t, h) <==> SweptInTime(s.heap, t, h))
  {
    hide Inv, EvictedOnTime, EvictedInAnyCompany;
    ReachableInv(s);
    InvStep(s, Arm(top));
    InvRun(Step(s, Arm(top)), es);
    DeadlineIsFixed(s, top, es);
    var t := Run(Step(s, Arm(top)), es);
    WaitPosition(t, h);
    var limit := Later(t.clock, h.expiration);
    if SweptInTime(s.heap, t, h) {
      AlwaysEvicts(t, h, limit);
      CompanyIncludesAlone(t, h);
    } else {
      if t.sweeper.Asleep? {
        LateAsleep(t, h);
      } else {
        LateAwake(t, h);
      }
      if EvictedInAnyCompany(t, h) {
        CompanyIncludesAlone(t, h);
      }
    }
  }

  lemma WaitPosition(t: State, h: HeapEntry)
    requires Inv(t) && !t.isStopping && h in t.heap
    ensures !t.sweeper.Exited? && h.generation <= t.generation && (t.sweeper.Sweeping? ==> Due(t.heap, t.clock))
  {
  }

  /** In particular, a put that lowers the least expiration during a wait is on time exactly if it is due at once. */
  lemma LoweringPutOnTimeIff(s: State, top: nat, es: seq<Event>, key: Key, value: Value, ttl: int, put: nat)
    requires Reachable(s) && Enabled(s, Arm(top)) && Feasible(Step(s, Arm(top)), es) && NoSweep(es)
    requires var t := Run(Step(s, Arm(top)), es);
             && !t.isStopping && Enabled(t, Put(key, value, ttl, put))
             && forall i :: 0 <= i < |t.heap| ==> t.clock + ttl < t.heap[i].expiration
    ensures var t := Run(Step(s, Arm(top)), es);
            EvictedOnTime(Step(t, Put(key, value, ttl, put)), HeapEntry(t.clock + ttl, t.generation + 1, key))
            <==> ttl <= 0
  {
    hide EvictedOnTime, EvictedInAnyCompany, Reachable;
    var s1 := Step(s, Arm(top));
    var t, e := Run(s1, es), Put(key, value, ttl, put);
    var t', h := Step(t, e), HeapEntry(t.clock + ttl, t.generation + 1, key);
    OnlySweepsPop(s1, es);
    RunLast(s1, es, e);
    PutWakesSweeper(t, key, value, ttl, put);
    assert t'.heap == t.heap + [h] && t'.heap[|t.heap|] == h;
    EvictedOnTimeIff(s, top, es + [e], h);
    hide Run, Feasible, Enabled, Step;
    assert forall g :: g in s.heap ==> g in t.heap;
  }

  lemma {:induction false} RunLast(s: State, es: seq<Event>, e: Event)
    requires Feasible(s, es) && Enabled(Run(s, es), e)
    ensures Feasible(s, es + [e]) && Run(s, es + [e]) == Step(Run(s, es), e)
    decreases |es|
  {
    if es != [] {
      assert (es + [e])[1..] == es[1..] + [e];
      RunLast(Step(s, es[0]), es[1..], e);
    }
  }

  /** A run, one event at a time. */
  lemma RunFirst(s: State, e: Event, es: seq<Event>)
    requires Enabled(s, e) && Feasible(Step(s, e), es)
    ensures Feasible(s, [e] + es) && Run(s, [e] + es) == Run(Step(s, e), es)
  {
    assert ([e] + es)[1..] == es;
  }

  /**
   The worst case: a put into an empty cache notifies the sweeper, which goes
   back to sleep with the deadline of the empty heap. From then on the entry stays in
   the map however much time passes, until some other notify. No get returns it.
   */
  lemma EvictionCanStall(dt: nat)
    ensures var es := [Arm(0), Put(7, 70, 10, 0), Recheck, Tick(10 + dt)];
            Feasible(Init(0), es) &&
            var s := Run(Init(0), es);
            s.sweeper == Asleep(None) && Due(s.heap, s.clock) && 7 in s.lookup && Get(s, 7) == None
  {
    var s1 := Step(Init(0), Arm(0));
    assert Pushed(s1, 7, 10) == [HeapEntry(10, 1, 7)];
    var s2 := Step(s1, Put(7, 70, 10, 0));
    var s3 := Step(s2, Recheck);
    var s4 := Step(s3, Tick(10 + dt));
    assert s4.heap[0].expiration == 10;
    hide Step, Enabled;
    RunFirst(s3, Tick(10 + dt), []);
    assert [Tick(10 + dt)] + [] == [Tick(10 + dt)];
    RunFirst(s2, Recheck, [Tick(10 + dt)]);
    assert [Recheck] + [Tick(10 + dt)] == [Recheck, Tick(10 + dt)];
    RunFirst(s1, Put(7, 70, 10, 0), [Recheck, Tick(10 + dt)]);
    assert [Put(7, 70, 10, 0)] + [Recheck, Tick(10 + dt)] == [Put(7, 70, 10, 0), Recheck, Tick(10 + dt)];
    RunFirst(Init(0), Arm(0), [Put(7, 70, 10, 0), Recheck, Tick(10 + dt)]);
    assert [Arm(0)] + [Put(7, 70, 10, 0), Recheck, Tick(10 + dt)]
        == [Arm(0), Put(7, 70, 10, 0), Recheck, Tick(10 + dt)];
  }

  // ----- stopping -----

  /** Once stop has set the flag, writes are refused and reads find nothing, for good. */
  lemma {:induction false} StoppedForGood(s: State, es: seq<Event>)
    requires s.isStopping && Feasible(s, es)
    ensures var t := Run(s, es); t.isStopping && t.writes == s.writes && forall k :: Get(t, k) == None
    decreases |es|
  {
    if es != [] {
      StoppedForGood(Step(s, es[0]), es[1..]);
    }
  }

  /** Steps a sweeper can still take after a stop. */
  ghost function StepsToExit(w: Sweeper): nat
  {
    match w
    case Exited => 0
    case Arming => 1
    case Awake(_) => 1
    case Asleep(_) => 2
    case Sweeping => 2
  }

  /** After the flag is set the sweeper takes at most two more steps, in every run. */
  lemma {:induction false} StopBoundsSweeper(s: State, es: seq<Event>)
    requires s.isStopping && Feasible(s, es)
    ensures SweeperSteps(es) + StepsToExit(Run(s, es).sweeper) <= StepsToExit(s.sweeper) <= 2
    decreases |es|
  {
    if es != [] {
      StopBoundsSweeper(Step(s, es[0]), es[1..]);
    }
  }

  /** Once stop has also notified, the sweeper can step until it has exited. */
  lemma StopReachesSweeper(s: State) returns (e: Event)
    requires Reachable(s) && s.isStopping && s.stops == 0 && !s.sweeper.Exited?
    ensures SweeperStep(e) && Enabled(s, e) && StepsToExit(Step(s, e).sweeper) < StepsToExit(s.sweeper)
  {
    ReachableInv(s);
    match s.sweeper
    case Awake(_) => e := Recheck;
    case Arming => e := ArmEvent(s);
    case Sweeping => e := Sweep;
  }

  lemma ArmEvent(s: State) returns (e: Event)
    requires s.sweeper.Arming?
    ensures e.Arm? && Enabled(s, e)
  {
    if s.heap == [] {
      e := Arm(0);
    } else {
      e := Arm(LeastIndex(s.heap));
    }
  }

  ghost function LeastIndex(heap: seq<HeapEntry>): (i: nat)
    requires heap != []
    ensures IsTop(heap, i)
  {
    var n := |heap| - 1;
    if n == 0 then 0
    else
      var i := LeastIndex(heap[..n]);
      assert forall j :: 0 <= j < n ==> heap[j] == heap[..n][j];
      if heap[n].expiration < heap[i].expiration then n else i
  }
}
